/** What one pass of the finalizer is meant to do: which rows it takes up, what it does to each, and what a crash
    leaves behind. */
module FinalizerPass {
  import opened Options
  import opened Sequences
  import opened Common
  import opened Ledger
  import opened ContractRuns
  import opened ClaimHistory
  import opened Issuance
  import opened HappyFinalizer
  import opened Supply
  import opened Totals

  datatype Manifest = Manifest(issuerOperator: Address, treasuryHolder: Address)

  datatype Candidate = Candidate(claimId: ClaimId, claimKey: Key, projectedState: ClaimState, pending: bool)

  // The query.

  /** REPAID rows that have a projection. */
  predicate Qualifies(s: Sys, id: ClaimId) {
    id in s.rows && s.rows[id].state.Repaid? && s.rows[id].claimKey in s.projected
  }

  function CandidateOf(s: Sys, id: ClaimId): Candidate
    requires Qualifies(s, id)
  {
    Candidate(id, s.rows[id].claimKey, s.projected[s.rows[id].claimKey], id in s.pending)
  }

  /** `order` is the order in which the table happens to be read. */
  function CandidatesOf(s: Sys, order: seq<ClaimId>): seq<Candidate> {
    if order == [] then []
    else
      var last := order[|order| - 1];
      CandidatesOf(s, order[..|order| - 1]) + if Qualifies(s, last) then [CandidateOf(s, last)] else []
  }

  lemma {:induction false} CandidatesAreQualifyingRows(s: Sys, order: seq<ClaimId>)
    ensures |CandidatesOf(s, order)| <= |order|
    ensures forall c <- CandidatesOf(s, order) ::
              c.claimId in order && Qualifies(s, c.claimId) && c == CandidateOf(s, c.claimId)
    ensures forall id <- order :: Qualifies(s, id) ==> CandidateOf(s, id) in CandidatesOf(s, order)
  {
    if order != [] {
      CandidatesAreQualifyingRows(s, order[..|order| - 1]);
      assert order == order[..|order| - 1] + [order[|order| - 1]];
    }
  }

  lemma {:induction false} CandidatesAreDistinct(s: Sys, order: seq<ClaimId>)
    requires Distinct(order)
    ensures forall i, j | 0 <= i < j < |CandidatesOf(s, order)| ::
              CandidatesOf(s, order)[i].claimId != CandidatesOf(s, order)[j].claimId
  {
    if order != [] {
      var init := order[..|order| - 1];
      CandidatesAreDistinct(s, init);
      CandidatesAreQualifyingRows(s, init);
      forall i | 0 <= i < |CandidatesOf(s, init)| ensures CandidatesOf(s, init)[i].claimId != order[|order| - 1] {
        assert CandidatesOf(s, init)[i] in CandidatesOf(s, init);
      }
    }
  }

  /** Reading every row once, the query returns exactly the REPAID rows with a projection, each once, with the
      projected state and the pending flag of that moment. */
  lemma CandidatesAreTheRepaidRows(s: Sys, order: seq<ClaimId>)
    requires Distinct(order) && forall id :: id in order <==> id in s.rows
    ensures forall c <- CandidatesOf(s, order) ::
              && c.claimId in s.rows && s.rows[c.claimId].state.Repaid? && c.claimKey == s.rows[c.claimId].claimKey
              && Lookup(s.projected, c.claimKey) == Some(c.projectedState) && (c.pending <==> c.claimId in s.pending)
    ensures forall id <- s.rows :: s.rows[id].state.Repaid? && s.rows[id].claimKey in s.projected ==>
              Candidate(id, s.rows[id].claimKey, s.projected[s.rows[id].claimKey], id in s.pending)
              in CandidatesOf(s, order)
    ensures forall i, j | 0 <= i < j < |CandidatesOf(s, order)| ::
              CandidatesOf(s, order)[i].claimId != CandidatesOf(s, order)[j].claimId
  {
    CandidatesAreQualifyingRows(s, order);
    CandidatesAreDistinct(s, order);
    forall id | id in s.rows && s.rows[id].state.Repaid? && s.rows[id].claimKey in s.projected
      ensures Candidate(id, s.rows[id].claimKey, s.projected[s.rows[id].claimKey], id in s.pending)
              in CandidatesOf(s, order)
    {
      assert id in order && Qualifies(s, id);
    }
  }

  // One claim.

  function RedeemCall(m: Manifest, k: Key, amount: I128): Invocation {
    Invocation({m.issuerOperator, m.treasuryHolder}, true, Call.Redeem(m.issuerOperator, k, m.treasuryHolder, amount))
  }

  function CloseCall(m: Manifest, k: Key): Invocation {
    Invocation({m.issuerOperator}, true, CloseClaim(m.issuerOperator, k))
  }

  function AfterRedeem(m: Manifest, s: Sys, k: Key): Sys {
    var n := s.chain.controller.Outstanding(k);
    if n > 0 then Act(s, Chain(RedeemCall(m, k, n))) else s
  }

  function AfterClose(m: Manifest, s: Sys, k: Key): Sys {
    Act(s, Chain(CloseCall(m, k)))
  }

  /** Redeemed in full, closed and recorded. */
  function FinishedBy(m: Manifest, s: Sys, c: Candidate): Sys {
    Act(AfterClose(m, AfterRedeem(m, s, c.claimKey), c.claimKey), Record(c.claimId))
  }

  /** How far a finish can have come when it crashes and nobody else acts. */
  predicate Partway(m: Manifest, s: Sys, c: Candidate, t: Sys) {
    || t == s || t == AfterRedeem(m, s, c.claimKey)
    || t == AfterClose(m, AfterRedeem(m, s, c.claimKey), c.claimKey) || t == FinishedBy(m, s, c)
  }

  /** A Repaid claim with tokens out that the operator and the holder of the manifest can redeem and close. */
  predicate Finishable(m: Manifest, s: Sys, k: Key) {
    && m.issuerOperator == s.chain.controller.operator
    && CanFinish(s.chain, {m.issuerOperator, m.treasuryHolder}, k, m.treasuryHolder)
    && s.chain.controller.Outstanding(k) > 0
  }

  /** A claim that is redeemed already, as a crash after the redemption leaves it. */
  predicate Resumable(m: Manifest, s: Sys, k: Key) {
    && m.issuerOperator == s.chain.controller.operator && s.chain.lifecycle.HasRole(Issuer, m.issuerOperator)
    && CanEnter(s.chain.lifecycle, k) && s.chain.lifecycle.claims[k].state.Redeemed?
    && s.chain.controller.Outstanding(k) == 0
  }

  predicate Workable(m: Manifest, s: Sys, k: Key) {
    Finishable(m, s, k) || Resumable(m, s, k)
  }

  lemma RedeemingMakesResumable(m: Manifest, s: Sys, k: Key)
    requires Finishable(m, s, k)
    ensures Plan(s.chain, RedeemCall(m, k, s.chain.controller.Outstanding(k))).Ok?
    ensures Resumable(m, AfterRedeem(m, s, k), k)
  {
    RedeemingAllRedeems(s.chain, {m.issuerOperator, m.treasuryHolder}, k, m.treasuryHolder);
  }

  lemma ResumableCloses(m: Manifest, s: Sys, k: Key)
    requires Resumable(m, s, k)
    ensures Plan(s.chain, CloseCall(m, k)).Ok? && ChainClosed(AfterClose(m, s, k).chain, k)
  {
    ClosingCloses(s.chain, {m.issuerOperator}, k);
    ClosedStaysClosed(s.chain, CloseCall(m, k), k);
  }

  /** Each call succeeds in its turn, and the claim ends Closed. */
  lemma WorkableFinishes(m: Manifest, s: Sys, c: Candidate)
    requires Workable(m, s, c.claimKey)
    ensures s.chain.controller.Outstanding(c.claimKey) > 0 ==>
              Plan(s.chain, RedeemCall(m, c.claimKey, s.chain.controller.Outstanding(c.claimKey))).Ok?
    ensures Resumable(m, AfterRedeem(m, s, c.claimKey), c.claimKey)
    ensures Plan(AfterRedeem(m, s, c.claimKey).chain, CloseCall(m, c.claimKey)).Ok?
    ensures ChainClosed(FinishedBy(m, s, c).chain, c.claimKey)
  {
    if Finishable(m, s, c.claimKey) { RedeemingMakesResumable(m, s, c.claimKey); }
    ResumableCloses(m, AfterRedeem(m, s, c.claimKey), c.claimKey);
  }

  // How a finish ends when nothing disturbs it.

  /** There is nothing to redeem, or the redemption is going to succeed. */
  predicate Redeemable(m: Manifest, s: Sys, k: Key) {
    var n := s.chain.controller.Outstanding(k);
    n == 0 || (n > 0 && Plan(s.chain, RedeemCall(m, k, n)).Ok?)
  }

  /** And after it the close is going to succeed. */
  predicate Succeeds(m: Manifest, s: Sys, k: Key) {
    Redeemable(m, s, k) && Plan(AfterRedeem(m, s, k).chain, CloseCall(m, k)).Ok?
  }

  /** The state it leaves, also when it throws: a redemption that went through is not undone. */
  function FinishLeaves(m: Manifest, s: Sys, c: Candidate): Sys {
    if Succeeds(m, s, c.claimKey) then FinishedBy(m, s, c)
    else if Redeemable(m, s, c.claimKey) then AfterRedeem(m, s, c.claimKey)
    else s
  }

  lemma CloseNeedsRedeemed(m: Manifest, s: Sys, k: Key)
    requires Plan(s.chain, CloseCall(m, k)).Ok?
    ensures Resumable(m, s, k)
  {
    PlannedMovesAreLegal(s.chain, CloseCall(m, k));
  }

  /** A redemption of everything after which the close goes through: the claim was Repaid, or Redeemed already. */
  lemma RedeemedByCall(m: Manifest, s: Sys, k: Key)
    requires s.chain.controller.Outstanding(k) > 0 && Redeemable(m, s, k) && Resumable(m, AfterRedeem(m, s, k), k)
    ensures k in s.chain.lifecycle.claims
    ensures Finishable(m, s, k) || s.chain.lifecycle.claims[k].state.Redeemed?
  {
    PlannedMovesAreLegal(s.chain, RedeemCall(m, k, s.chain.controller.Outstanding(k)));
  }

  /** A finish succeeds exactly on the workable claims, as long as no redeemed claim owes tokens. */
  lemma SucceedsIffWorkable(m: Manifest, s: Sys, k: Key)
    ensures Workable(m, s, k) ==> Succeeds(m, s, k)
    ensures NoneOwed(s.chain) ==> (Succeeds(m, s, k) <==> Workable(m, s, k))
  {
    if Workable(m, s, k) { WorkableSucceeds(m, s, k); }
    if Succeeds(m, s, k) { SucceedsOnlyIfWorkable(m, s, k); }
  }

  lemma WorkableSucceeds(m: Manifest, s: Sys, k: Key)
    requires Workable(m, s, k)
    ensures Succeeds(m, s, k)
  {
    if Finishable(m, s, k) { RedeemingMakesResumable(m, s, k); }
    ResumableCloses(m, AfterRedeem(m, s, k), k);
  }

  lemma SucceedsOnlyIfWorkable(m: Manifest, s: Sys, k: Key)
    requires Succeeds(m, s, k)
    ensures k in s.chain.lifecycle.claims
    ensures Workable(m, s, k) || (s.chain.lifecycle.claims[k].state.Redeemed? && s.chain.controller.Outstanding(k) > 0)
  {
    CloseNeedsRedeemed(m, AfterRedeem(m, s, k), k);
    if s.chain.controller.Outstanding(k) > 0 { RedeemedByCall(m, s, k); }
  }

  lemma SuccessCloses(m: Manifest, s: Sys, c: Candidate)
    requires Succeeds(m, s, c.claimKey)
    ensures ChainClosed(AfterClose(m, AfterRedeem(m, s, c.claimKey), c.claimKey).chain, c.claimKey)
    ensures ChainClosed(FinishedBy(m, s, c).chain, c.claimKey)
  {
    CloseNeedsRedeemed(m, AfterRedeem(m, s, c.claimKey), c.claimKey);
    ResumableCloses(m, AfterRedeem(m, s, c.claimKey), c.claimKey);
  }

  /** The finalizer's own redemption spends a claim, funded and not yet redeemed, exactly when it is not in state
      Repaid at that moment: one that is paused, for instance. */
  lemma RedemptionSpendsIff(m: Manifest, s: Sys, k: Key)
    requires s.chain.controller.Outstanding(k) > 0 && Redeemable(m, s, k)
    requires k in s.chain.lifecycle.claims && PauseWellFormed(s.chain.lifecycle.claims[k])
    requires Rank(s.chain.lifecycle.claims[k].Effective()) >= 3 && !s.chain.lifecycle.claims[k].Effective().Redeemed?
    ensures Spent(AfterRedeem(m, s, k).chain, k) <==> !s.chain.lifecycle.claims[k].state.Repaid?
  {
    TakingAllSpends(s.chain, RedeemCall(m, k, s.chain.controller.Outstanding(k)));
  }

  // Crashes.

  lemma RedeemingTwiceIsOnce(m: Manifest, s: Sys, k: Key)
    ensures var t := AfterRedeem(m, s, k);
            if Redeemable(m, s, k) then Redeemable(m, t, k) && AfterRedeem(m, t, k) == t else t == s
  {
    if s.chain.controller.Outstanding(k) > 0 {
      FullRedemptionEmpties(s.chain, RedeemCall(m, k, s.chain.controller.Outstanding(k)));
    }
  }

  lemma FullRedemptionEmpties(w: World, i: Invocation)
    requires i.call.Redeem? && i.call.amount == w.controller.Outstanding(i.call.k)
    ensures Plan(w, i).Ok? ==> Step(w, i).controller.Outstanding(i.call.k) == 0
    ensures !Plan(w, i).Ok? ==> Step(w, i) == w
  {
  }

  lemma FailedCloseChangesNothing(m: Manifest, s: Sys, k: Key)
    requires !Succeeds(m, s, k)
    ensures AfterClose(m, AfterRedeem(m, s, k), k) == AfterRedeem(m, s, k)
  {
    RedeemingTwiceIsOnce(m, s, k);
    if Plan(AfterRedeem(m, s, k).chain, CloseCall(m, k)).Ok? { CloseNeedsRedeemed(m, AfterRedeem(m, s, k), k); }
  }

  /** A crash that leaves the claim open has not come further than the redemption. */
  lemma OpenAfterCrash(m: Manifest, s: Sys, c: Candidate, t: Sys)
    requires Partway(m, s, c, t) && !ChainClosed(t.chain, c.claimKey)
    ensures t.chain == s.chain || t.chain == AfterRedeem(m, s, c.claimKey).chain
  {
    if Succeeds(m, s, c.claimKey) { SuccessCloses(m, s, c); } else { FailedCloseChangesNothing(m, s, c.claimKey); }
  }

  lemma SucceedsAfterRedeem(m: Manifest, s: Sys, k: Key)
    ensures Succeeds(m, AfterRedeem(m, s, k), k) <==> Succeeds(m, s, k)
  {
    RedeemingTwiceIsOnce(m, s, k);
  }

  lemma SucceedsSeesTheChain(m: Manifest, s: Sys, t: Sys, k: Key)
    requires s.chain == t.chain
    ensures Succeeds(m, s, k) <==> Succeeds(m, t, k)
  {
  }

  lemma CrashKeepsSuccess(m: Manifest, s: Sys, c: Candidate, t: Sys)
    requires Partway(m, s, c, t) && !ChainClosed(t.chain, c.claimKey)
    ensures Succeeds(m, t, c.claimKey) <==> Succeeds(m, s, c.claimKey)
  {
    var redeemed := AfterRedeem(m, s, c.claimKey);
    OpenAfterCrash(m, s, c, t);
    SucceedsAfterRedeem(m, s, c.claimKey);
    if t.chain == s.chain {
      SucceedsSeesTheChain(m, t, s, c.claimKey);
    } else {
      SucceedsSeesTheChain(m, t, redeemed, c.claimKey);
    }
  }

  lemma ClosedIsPromoted(t: Sys, id: ClaimId)
    requires id in t.rows && t.rows[id].state.Repaid? && ChainClosed(t.chain, t.rows[id].claimKey)
    ensures var indexed := Act(t, Index(t.rows[id].claimKey));
            && Qualifies(indexed, id) && CandidateOf(indexed, id).projectedState.Closed?
            && Admitted(indexed, Promote(id))
            && Act(indexed, Promote(id)).rows[id] == t.rows[id].(state := Closed, version := t.rows[id].version + 1)
  {
  }

  /** Recovery: wherever a finish crashes, either the claim is Closed, or finishing it again succeeds exactly if it
      would have succeeded in the first place, and then closes it. Once it is Closed, indexing it makes its REPAID
      row one to promote, and promoting it closes the row under the next version. */
  lemma CrashRecovery(m: Manifest, s: Sys, c: Candidate, t: Sys)
    requires Partway(m, s, c, t)
    ensures !ChainClosed(t.chain, c.claimKey) ==>
              && (Succeeds(m, t, c.claimKey) <==> Succeeds(m, s, c.claimKey))
              && (Succeeds(m, s, c.claimKey) ==> ChainClosed(FinishLeaves(m, t, c).chain, c.claimKey))
    ensures ChainClosed(t.chain, c.claimKey) && Qualifies(s, c.claimId) && c == CandidateOf(s, c.claimId) ==>
              var indexed := Act(t, Index(c.claimKey));
              && Qualifies(indexed, c.claimId) && CandidateOf(indexed, c.claimId).projectedState.Closed?
              && Admitted(indexed, Promote(c.claimId))
              && Act(indexed, Promote(c.claimId)).rows[c.claimId]
                 == s.rows[c.claimId].(state := Closed, version := s.rows[c.claimId].version + 1)
  {
    assert t.rows == s.rows;
    if ChainClosed(t.chain, c.claimKey) {
      if Qualifies(s, c.claimId) && c == CandidateOf(s, c.claimId) { ClosedIsPromoted(t, c.claimId); }
    } else {
      CrashKeepsSuccess(m, s, c, t);
      if Succeeds(m, t, c.claimKey) { SuccessCloses(m, t, c); }
    }
  }

  // A whole pass.

  /** Neither promoted nor skipped. */
  predicate TakenUp(c: Candidate) {
    !c.projectedState.Closed? && !c.pending
  }

  function HandledBy(m: Manifest, s: Sys, c: Candidate): Sys {
    if c.projectedState.Closed? then Act(s, Promote(c.claimId))
    else if c.pending then s
    else FinishedBy(m, s, c)
  }

  /** The state after an undisturbed pass over some candidates. */
  function PassOver(m: Manifest, s: Sys, found: seq<Candidate>): Sys {
    if found == [] then s else HandledBy(m, PassOver(m, s, found[..|found| - 1]), found[|found| - 1])
  }

  /** Every claim taken up can be worked when its turn comes. */
  predicate Ready(m: Manifest, s: Sys, found: seq<Candidate>) {
    if found == [] then true
    else
      var init, c := found[..|found| - 1], found[|found| - 1];
      Ready(m, s, init) && (TakenUp(c) ==> Workable(m, PassOver(m, s, init), c.claimKey))
  }

  function HandledCount(candidates: seq<Candidate>): nat {
    if candidates == [] then 0
    else
      var c := candidates[|candidates| - 1];
      HandledCount(candidates[..|candidates| - 1]) + Bit(c.projectedState.Closed? || !c.pending)
  }

  /** What is true of a candidate once it has been handled. */
  predicate Finished(s: Sys, c: Candidate) {
    && (c.projectedState.Closed? || !c.pending ==> ChainClosed(s.chain, c.claimKey))
    && (c.projectedState.Closed? ==> RowClosed(s, c.claimId))
  }

  /** A candidate read as projected CLOSED is closed on chain and still projected so. */
  predicate Expected(s: Sys, c: Candidate) {
    c.projectedState.Closed? ==> ProjectedClosed(s, c.claimId) && ChainClosed(s.chain, c.claimKey)
  }

  /** In the middle of a pass: the first `j` candidates are finished, and what was projected stays true. */
  predicate Going(s: Sys, found: seq<Candidate>, j: nat) {
    && j <= |found|
    && (forall c <- found :: Expected(s, c))
    && (forall i | 0 <= i < j :: Finished(s, found[i]))
  }

  lemma CandidatesAreExpected(s: Sys, order: seq<ClaimId>)
    requires ProjectionBehind(s)
    ensures Going(s, CandidatesOf(s, order), 0)
  {
    CandidatesAreQualifyingRows(s, order);
  }

  lemma GoingPersists(s: Sys, t: Sys, found: seq<Candidate>, j: nat)
    requires Later(s, t) && Going(s, found, j)
    ensures Going(t, found, j)
  {
    forall i | 0 <= i < j ensures Finished(t, found[i]) { assert Finished(s, found[i]); }
    forall c | c in found ensures Expected(t, c) { assert Expected(s, c); }
  }

  /** A claim that is finished now was not stranded before. */
  lemma FinishedWereNotStranded(s: Sys, t: Sys, c: Candidate)
    requires Later(s, t) && TakenUp(c) && Finished(t, c)
    ensures !Stranded(s.chain, c.claimKey)
  {
    assert Stranded(s.chain, c.claimKey) ==> Stranded(t.chain, c.claimKey);
  }

  // Candidates that cannot be finished.

  /** Nothing to redeem, and the close would fail: the pass throws here. */
  predicate Blocked(m: Manifest, s: Sys, k: Key) {
    s.chain.controller.Outstanding(k) == 0 && !Plan(s.chain, CloseCall(m, k)).Ok?
  }

  /** A stranded claim is blocked for ever, and so is a Closed claim until it is indexed. */
  lemma StrandedAndClosedAreBlocked(m: Manifest, s: Sys, k: Key)
    ensures Stranded(s.chain, k) ==> Blocked(m, s, k)
    ensures ChainClosed(s.chain, k) && s.chain.controller.Outstanding(k) == 0 ==> Blocked(m, s, k)
    ensures Blocked(m, s, k) ==> !Succeeds(m, s, k) && Redeemable(m, s, k) && AfterRedeem(m, s, k) == s
  {
    if Plan(s.chain, CloseCall(m, k)).Ok? { PlannedMovesAreLegal(s.chain, CloseCall(m, k)); }
  }

  // When a whole pass goes through.

  /** Workable if the holder has the tokens. */
  predicate Able(m: Manifest, s: Sys, k: Key) {
    || Resumable(m, s, k)
    || (&& m.issuerOperator == s.chain.controller.operator && s.chain.controller.Outstanding(k) > 0
        && MayFinish(s.chain, {m.issuerOperator, m.treasuryHolder}, k, m.treasuryHolder))
  }

  /** What the claims taken up owe together. */
  function Owed(s: Sys, found: seq<Candidate>): int {
    if found == [] then 0
    else
      var c := found[|found| - 1];
      Owed(s, found[..|found| - 1]) + if TakenUp(c) then s.chain.controller.Outstanding(c.claimKey) else 0
  }

  predicate DistinctClaims(found: seq<Candidate>) {
    forall i, j | 0 <= i < j < |found| :: found[i].claimKey != found[j].claimKey
  }

  /** What finishing one claim leaves of the others and of the holder's balance. */
  predicate Spares(m: Manifest, s: Sys, t: Sys, k: Key) {
    && t.chain.controller.Outstanding(k) == s.chain.controller.Outstanding(k)
    && (Able(m, s, k) ==> Able(m, t, k))
  }

  lemma MoveSpares(m: Manifest, s: Sys, i: Invocation, k: Key)
    requires Plan(s.chain, i).Ok? && (Plan(s.chain, i).value.Redeem? || Plan(s.chain, i).value.CloseOut?)
    requires Plan(s.chain, i).value.k != k
    ensures Spares(m, s, Act(s, Chain(i)), k)
  {
    LegalMoveSpares(m, s, Plan(s.chain, i).value, k);
  }

  lemma LegalMoveSpares(m: Manifest, s: Sys, move: Move, k: Key)
    requires (move.Redeem? || move.CloseOut?) && move.k != k
    ensures Spares(m, s, s.(chain := Apply(s.chain, move)), k)
  {
    OtherClaimsUntouched(s.chain, move, k);
  }

  lemma FinishSpares(m: Manifest, s: Sys, c: Candidate, k: Key)
    requires Workable(m, s, c.claimKey) && k != c.claimKey
    ensures Spares(m, s, FinishedBy(m, s, c), k)
  {
    var redeemed := AfterRedeem(m, s, c.claimKey);
    WorkableFinishes(m, s, c);
    if s.chain.controller.Outstanding(c.claimKey) > 0 {
      RedeemingAllRedeems(s.chain, {m.issuerOperator, m.treasuryHolder}, c.claimKey, m.treasuryHolder);
      MoveSpares(m, s, RedeemCall(m, c.claimKey, s.chain.controller.Outstanding(c.claimKey)), k);
    }
    ClosingCloses(redeemed.chain, {m.issuerOperator}, c.claimKey);
    MoveSpares(m, redeemed, CloseCall(m, c.claimKey), k);
  }

  lemma FinishPays(m: Manifest, s: Sys, c: Candidate)
    requires Workable(m, s, c.claimKey)
    ensures FinishedBy(m, s, c).chain.token.Balance(m.treasuryHolder)
            == s.chain.token.Balance(m.treasuryHolder) - s.chain.controller.Outstanding(c.claimKey)
  {
    var redeemed := AfterRedeem(m, s, c.claimKey);
    WorkableFinishes(m, s, c);
    if s.chain.controller.Outstanding(c.claimKey) > 0 {
      RedeemingAllRedeems(s.chain, {m.issuerOperator, m.treasuryHolder}, c.claimKey, m.treasuryHolder);
    }
    ClosingCloses(redeemed.chain, {m.issuerOperator}, c.claimKey);
  }

  /** Claims outside a pass are spared, and the holder has paid what was owed. */
  ghost predicate Paid(m: Manifest, s: Sys, t: Sys, found: seq<Candidate>) {
    && t.chain.token.Balance(m.treasuryHolder) == s.chain.token.Balance(m.treasuryHolder) - Owed(s, found)
    && forall k :: k !in Keys(found) ==> Spares(m, s, t, k)
  }

  function Keys(found: seq<Candidate>): set<Key> {
    set c | c in found :: c.claimKey
  }

  lemma PaidOneMore(m: Manifest, s: Sys, t: Sys, init: seq<Candidate>, c: Candidate)
    requires Paid(m, s, t, init) && c.claimKey !in Keys(init)
    requires TakenUp(c) ==> Able(m, s, c.claimKey) && Owed(s, init + [c]) <= s.chain.token.Balance(m.treasuryHolder)
    ensures TakenUp(c) ==> Workable(m, t, c.claimKey)
    ensures Paid(m, s, HandledBy(m, t, c), init + [c])
  {
    assert (init + [c])[..|init|] == init;
    assert Keys(init + [c]) == Keys(init) + {c.claimKey};
    if TakenUp(c) {
      assert Spares(m, s, t, c.claimKey);
      FinishPays(m, t, c);
      forall k | k !in Keys(init + [c]) ensures Spares(m, s, FinishedBy(m, t, c), k) {
        assert Spares(m, s, t, k);
        FinishSpares(m, t, c, k);
      }
    }
  }

  /** An undisturbed pass goes through if every claim it takes up is able to finish, no claim comes up twice, and
      the holder has the tokens for all of them. */
  lemma {:induction false} AbleAndCoveredIsReady(m: Manifest, s: Sys, found: seq<Candidate>)
    requires DistinctClaims(found) && (forall c <- found :: TakenUp(c) ==> Able(m, s, c.claimKey))
    requires Owed(s, found) <= s.chain.token.Balance(m.treasuryHolder)
    ensures Ready(m, s, found) && Paid(m, s, PassOver(m, s, found), found)
  {
    if found != [] {
      var init, c := found[..|found| - 1], found[|found| - 1];
      assert found == init + [c];
      OwedGrows(m, s, found);
      AbleAndCoveredIsReady(m, s, init);
      PaidOneMore(m, s, PassOver(m, s, init), init, c);
    }
  }

  /** As long as tokens only move through claims, the holder has the tokens for everything recorded as its own. */
  lemma {:induction false} OwedIsCovered(w: World, calls: seq<Invocation>, m: Manifest, s: Sys, found: seq<Candidate>)
    requires Genesis(w) && ClaimScoped(calls) && s.chain == Run(w, calls) && DistinctClaims(found)
    requires forall c <- found :: TakenUp(c) && s.chain.controller.Outstanding(c.claimKey) != 0 ==>
               Lookup(s.chain.controller.holder, c.claimKey) == Some(m.treasuryHolder)
    ensures Owed(s, found) <= s.chain.token.Balance(m.treasuryHolder)
  {
    var held := Holdings(s.chain.controller, m.treasuryHolder);
    BalancesAreHoldings(w, calls);
    forall k | k in held ensures held[k] >= 0 { IssuanceBound(w, calls, k); }
    OwedWithin(s, found, held);
  }

  /** Distinct entries of a map add up to no more than the map. */
  lemma {:induction false} OwedWithin(s: Sys, found: seq<Candidate>, held: map<Key, int>)
    requires DistinctClaims(found) && forall k <- held :: held[k] >= 0
    requires forall c <- found :: TakenUp(c) ==> s.chain.controller.Outstanding(c.claimKey) <= At(held, c.claimKey)
    ensures Owed(s, found) <= Total(held)
  {
    if found == [] {
      TotalAtLeast(held, Key(0));
    } else {
      var init, c := found[..|found| - 1], found[|found| - 1];
      TotalWithout(held, c.claimKey);
      forall d | d in init && TakenUp(d)
        ensures s.chain.controller.Outstanding(d.claimKey) <= At(held - {c.claimKey}, d.claimKey)
      {
        assert d in found && d.claimKey != c.claimKey;
      }
      assert c in found;
      OwedWithin(s, init, held - {c.claimKey});
    }
  }

  lemma OwedGrows(m: Manifest, s: Sys, found: seq<Candidate>)
    requires found != [] && forall c <- found :: TakenUp(c) ==> Able(m, s, c.claimKey)
    ensures Owed(s, found[..|found| - 1]) <= Owed(s, found)
  {
    assert found[|found| - 1] in found;
  }

  // When an undisturbed pass completes, and what it leaves when it does not.

  /** Every claim taken up succeeds when its turn comes. */
  predicate Completes(m: Manifest, s: Sys, found: seq<Candidate>) {
    if found == [] then true
    else
      var init, c := found[..|found| - 1], found[|found| - 1];
      Completes(m, s, init) && (TakenUp(c) ==> Succeeds(m, PassOver(m, s, init), c.claimKey))
  }

  /** What one candidate leaves. */
  function HandleLeaves(m: Manifest, s: Sys, c: Candidate): Sys {
    if TakenUp(c) then FinishLeaves(m, s, c) else HandledBy(m, s, c)
  }

  /** The pass goes on until a claim it has taken up does not succeed. */
  function PassLeaves(m: Manifest, s: Sys, found: seq<Candidate>): Sys {
    if found == [] then s
    else
      var init := found[..|found| - 1];
      if Completes(m, s, init) then HandleLeaves(m, PassOver(m, s, init), found[|found| - 1])
      else PassLeaves(m, s, init)
  }

  lemma CompletesAppend(m: Manifest, s: Sys, found: seq<Candidate>, j: nat)
    requires j < |found|
    ensures Completes(m, s, found[..j + 1]) <==>
            && Completes(m, s, found[..j])
            && (TakenUp(found[j]) ==> Succeeds(m, PassOver(m, s, found[..j]), found[j].claimKey))
    ensures PassOver(m, s, found[..j + 1]) == HandledBy(m, PassOver(m, s, found[..j]), found[j])
    ensures PassLeaves(m, s, found[..j + 1]) ==
              if Completes(m, s, found[..j]) then HandleLeaves(m, PassOver(m, s, found[..j]), found[j])
              else PassLeaves(m, s, found[..j])
    ensures HandledCount(found[..j + 1])
        == HandledCount(found[..j]) + Bit(found[j].projectedState.Closed? || !found[j].pending)
  {
    assert found[..j + 1][..j] == found[..j];
  }

  /** What a pass leaves at the first claim that does not succeed, it leaves in the end. */
  lemma {:induction false} StopsAt(m: Manifest, s: Sys, found: seq<Candidate>, j: nat, i: nat)
    requires j <= i <= |found| && !Completes(m, s, found[..j])
    ensures !Completes(m, s, found[..i]) && PassLeaves(m, s, found[..i]) == PassLeaves(m, s, found[..j])
    decreases i
  {
    if j < i {
      StopsAt(m, s, found, j, i - 1);
      CompletesAppend(m, s, found, i - 1);
    }
  }

  lemma {:induction false} CompletePassIsOver(m: Manifest, s: Sys, found: seq<Candidate>)
    requires Completes(m, s, found)
    ensures PassLeaves(m, s, found) == PassOver(m, s, found)
  {
  }

  lemma HandlingOwesNothing(m: Manifest, s: Sys, c: Candidate)
    requires NoneOwed(s.chain)
    ensures NoneOwed(HandledBy(m, s, c).chain)
  {
    var k, n := c.claimKey, s.chain.controller.Outstanding(c.claimKey);
    if TakenUp(c) {
      if n > 0 { NoneOwedStays(s.chain, RedeemCall(m, k, n)); }
      NoneOwedStays(AfterRedeem(m, s, k).chain, CloseCall(m, k));
    }
  }

  lemma {:induction false} PassOwesNothing(m: Manifest, s: Sys, found: seq<Candidate>)
    requires NoneOwed(s.chain)
    ensures NoneOwed(PassOver(m, s, found).chain)
  {
    if found != [] {
      PassOwesNothing(m, s, found[..|found| - 1]);
      HandlingOwesNothing(m, PassOver(m, s, found[..|found| - 1]), found[|found| - 1]);
    }
  }

  /** A pass completes exactly if every claim it takes up is workable when its turn comes, as long as no redeemed
      claim owes tokens. */
  lemma {:induction false} CompletesIffReady(m: Manifest, s: Sys, found: seq<Candidate>)
    requires NoneOwed(s.chain)
    ensures Completes(m, s, found) <==> Ready(m, s, found)
  {
    if found != [] {
      var init, c := found[..|found| - 1], found[|found| - 1];
      CompletesIffReady(m, s, init);
      PassOwesNothing(m, s, init);
      SucceedsIffWorkable(m, PassOver(m, s, init), c.claimKey);
    }
  }

  // What a pass leaves alone.

  /** The record of a claim, its issuance and holder, and what has been burned on it. */
  predicate SameClaim(s: Sys, t: Sys, k: Key) {
    && Lookup(t.chain.lifecycle.claims, k) == Lookup(s.chain.lifecycle.claims, k)
    && t.chain.controller.Outstanding(k) == s.chain.controller.Outstanding(k)
    && Lookup(t.chain.controller.holder, k) == Lookup(s.chain.controller.holder, k)
    && Burned(t.chain.controller.log, k) == Burned(s.chain.controller.log, k)
  }

  lemma CallSparesOthers(s: Sys, i: Invocation, k: Key)
    requires (i.call.Redeem? || i.call.CloseClaim?) && i.call.k != k
    ensures SameClaim(s, Act(s, Chain(i)), k)
  {
    if Plan(s.chain, i).Ok? {
      PlannedMovesAreLegal(s.chain, i);
      CallNamesItsClaim(s.chain, i);
      MoveSparesOthers(s, Plan(s.chain, i).value, k);
    }
  }

  lemma CallNamesItsClaim(w: World, i: Invocation)
    requires (i.call.Redeem? || i.call.CloseClaim?) && Plan(w, i).Ok?
    ensures Subject(Plan(w, i).value) == Some(i.call.k)
    ensures Plan(w, i).value.Redeem? || Plan(w, i).value.CloseOut?
  {
  }

  lemma MoveSparesOthers(s: Sys, move: Move, k: Key)
    requires (move.Redeem? || move.CloseOut?) && Legal(s.chain, move) && Subject(move) != Some(k)
    ensures SameClaim(s, s.(chain := Apply(s.chain, move)), k)
  {
    LogsOf(s.chain, move, k);
    OtherClaimsUntouched(s.chain, move, k);
  }

  lemma HandlingSparesOthers(m: Manifest, s: Sys, c: Candidate, k: Key)
    requires c.claimKey != k
    ensures SameClaim(s, HandleLeaves(m, s, c), k) && SameClaim(s, HandledBy(m, s, c), k)
  {
    if TakenUp(c) {
      FinishSparesOthers(m, s, c, k);
      FailedFinishSparesOthers(m, s, c, k);
    } else {
      SkippedClaimsAreLeft(m, s, c, k);
    }
  }

  lemma FailedFinishSparesOthers(m: Manifest, s: Sys, c: Candidate, k: Key)
    requires c.claimKey != k
    ensures SameClaim(s, FinishLeaves(m, s, c), k)
  {
    RedeemSparesOthers(m, s, c.claimKey, k);
    FinishSparesOthers(m, s, c, k);
  }

  lemma FinishSparesOthers(m: Manifest, s: Sys, c: Candidate, k: Key)
    requires c.claimKey != k
    ensures SameClaim(s, FinishedBy(m, s, c), k)
  {
    RedeemSparesOthers(m, s, c.claimKey, k);
    CloseSparesOthers(m, AfterRedeem(m, s, c.claimKey), c.claimKey, k);
    SameClaimTransitive(s, AfterRedeem(m, s, c.claimKey), AfterClose(m, AfterRedeem(m, s, c.claimKey), c.claimKey), k);
  }

  lemma SameClaimTransitive(s: Sys, t: Sys, u: Sys, k: Key)
    requires SameClaim(s, t, k) && SameClaim(t, u, k)
    ensures SameClaim(s, u, k)
  {
  }

  lemma CloseSparesOthers(m: Manifest, s: Sys, j: Key, k: Key)
    requires j != k
    ensures SameClaim(s, AfterClose(m, s, j), k)
  {
    CallSparesOthers(s, CloseCall(m, j), k);
  }

  lemma RedeemSparesOthers(m: Manifest, s: Sys, j: Key, k: Key)
    requires j != k
    ensures SameClaim(s, AfterRedeem(m, s, j), k)
  {
    var n := s.chain.controller.Outstanding(j);
    if n > 0 { CallSparesOthers(s, RedeemCall(m, j, n), k); }
  }

  lemma {:induction false} PassSparesOthers(m: Manifest, s: Sys, found: seq<Candidate>, k: Key)
    requires forall c <- found :: c.claimKey != k
    ensures SameClaim(s, PassLeaves(m, s, found), k) && SameClaim(s, PassOver(m, s, found), k)
  {
    if found != [] {
      var init, c := found[..|found| - 1], found[|found| - 1];
      assert forall d <- init :: d in found;
      PassSparesOthers(m, s, init, k);
      assert c in found;
      HandlingSparesOthers(m, PassOver(m, s, init), c, k);
    }
  }

  /** A pass touches no claim that no REPAID row carries. */
  lemma OnlyRepaidRowsAreTakenUp(m: Manifest, s: Sys, order: seq<ClaimId>, k: Key)
    requires forall id <- s.rows :: s.rows[id].state.Repaid? ==> s.rows[id].claimKey != k
    ensures SameClaim(s, PassLeaves(m, s, CandidatesOf(s, order)), k)
  {
    CandidatesAreQualifyingRows(s, order);
    PassSparesOthers(m, s, CandidatesOf(s, order), k);
  }

  /** Nor one whose row is pending, or projected CLOSED. */
  lemma SkippedClaimsAreLeft(m: Manifest, s: Sys, c: Candidate, k: Key)
    requires c.pending || c.projectedState.Closed?
    ensures SameClaim(s, HandleLeaves(m, s, c), k) && SameClaim(s, HandledBy(m, s, c), k)
  {
  }

  /** A finish that succeeds has redeemed, closed and recorded, in one. */
  lemma SuccessLeaves(m: Manifest, s: Sys, c: Candidate)
    requires Succeeds(m, s, c.claimKey)
    ensures var t := FinishLeaves(m, s, c);
            && ChainClosed(t.chain, c.claimKey) && t.chain.controller.Outstanding(c.claimKey) == 0
            && t.pending == s.pending + {c.claimId} && t.rows == s.rows && t.projected == s.projected
  {
    SuccessCloses(m, s, c);
    RedeemingTwiceIsOnce(m, s, c.claimKey);
    CloseNeedsRedeemed(m, AfterRedeem(m, s, c.claimKey), c.claimKey);
  }

  /** The number a pass answers: promoted candidates and those it has taken through. */
  lemma {:induction false} CountsHandled(found: seq<Candidate>)
    ensures HandledCount(found)
        == |set i | 0 <= i < |found| && (found[i].projectedState.Closed? || !found[i].pending)|
  {
    if found != [] {
      var n := |found| - 1;
      var init := found[..n];
      var before := set i | 0 <= i < n && (init[i].projectedState.Closed? || !init[i].pending);
      var all := set i | 0 <= i < |found| && (found[i].projectedState.Closed? || !found[i].pending);
      CountsHandled(init);
      assert all == if found[n].projectedState.Closed? || !found[n].pending then before + {n} else before;
    }
  }
}
