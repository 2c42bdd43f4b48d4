/** How much of a claim is issued, when it must be zero, and which claims can still be closed. */
module Issuance {
  import opened Options
  import opened Common
  import opened Ledger
  import opened ContractRuns
  import opened ClaimHistory
  import opened ClaimProvenance

  /** Positive issuance needs an existing, controlled, evidenced claim and stays within its principal. */
  predicate Bounded(w: World, k: Key) {
    var n := w.controller.Outstanding(k);
    && n >= 0
    && (k in w.lifecycle.claims && !w.lifecycle.claims[k].Effective().Eligible? ==>
        w.lifecycle.claims[k].evidenceHash.Some?)
    && (n > 0 ==>
          && k in w.lifecycle.claims && !w.lifecycle.claims[k].Effective().Eligible?
          && n <= w.lifecycle.claims[k].approvedPrincipal && k in w.controller.holder)
  }

  lemma BoundedStep(w: World, m: Move, k: Key)
    requires Legal(w, m) && Bounded(w, k) && History(w.lifecycle, k)
    ensures Bounded(Apply(w, m), k)
  {
    if Subject(m) != Some(k) {
      OtherClaimsUntouched(w, m, k);
    } else if k in w.lifecycle.claims {
      EffectiveAfter(w, m, k);
    }
  }

  /** Only control confirmation leaves Eligible, and nothing returns to it. */
  lemma EffectiveAfter(w: World, m: Move, k: Key)
    requires Legal(w, m) && k in w.lifecycle.claims && PauseWellFormed(w.lifecycle.claims[k])
    ensures var c, d := w.lifecycle.claims[k], Apply(w, m).lifecycle.claims[k];
            && SameTerms(c, d)
            && (c.evidenceHash.Some? ==> d.evidenceHash.Some?)
            && (d.Effective().Eligible? ==> c.Effective().Eligible?)
            && (c.Effective().Eligible? && !d.Effective().Eligible? ==> d.evidenceHash.Some?)
  {
    ClaimContinues(w, m, k);
    if m.Advance? && m.k == k { EdgesRaiseRankByOne(w.lifecycle.claims[k].state, m.next); }
  }

  /** In every reachable state: 0 <= issued <= approved principal, and positive issuance implies the claim
      exists, has control evidence and has left Eligible. */
  lemma {:induction false} IssuanceBound(w: World, calls: seq<Invocation>, k: Key)
    requires Genesis(w)
    ensures Bounded(Run(w, calls), k)
  {
    if calls != [] {
      var before, last := Run(w, calls[..|calls| - 1]), calls[|calls| - 1];
      IssuanceBound(w, calls[..|calls| - 1], k);
      StepAccounting(w, calls[..|calls| - 1], k);
      LastStep(w, calls);
      if Plan(before, last).Ok? { BoundedStep(before, Plan(before, last).value, k); }
    }
  }

  /** A terminal claim without issuance stays without issuance. */
  lemma {:induction false} TerminalStaysEmpty(w: World, calls: seq<Invocation>, k: Key)
    requires k in w.lifecycle.claims && w.lifecycle.claims[k].state.Terminal() && w.controller.Outstanding(k) == 0
    ensures Run(w, calls).controller.Outstanding(k) == 0
  {
    if calls != [] {
      var before, last := Run(w, calls[..|calls| - 1]), calls[|calls| - 1];
      TerminalStaysEmpty(w, calls[..|calls| - 1], k);
      RunsContinue(w, calls[..|calls| - 1]);
      LastStep(w, calls);
      if Plan(before, last).Ok? && Subject(Plan(before, last).value) != Some(k) {
        OtherClaimsUntouched(before, Plan(before, last).value, k);
      }
    }
  }

  /** After a successful `close_claim` the claim is Closed with nothing issued, in every later state. */
  lemma CloseIsForever(w: World, i: Invocation, calls: seq<Invocation>)
    requires i.call.CloseClaim? && Plan(w, i).Ok?
    ensures var v := Run(Step(w, i), calls);
            && v.controller.Outstanding(i.call.k) == 0
            && i.call.k in v.lifecycle.claims && v.lifecycle.claims[i.call.k].state.Closed?
  {
    PlannedMovesAreLegal(w, i);
    TerminalStaysEmpty(Step(w, i), calls, i.call.k);
    RunsContinue(Step(w, i), calls);
  }

  // Runs in which Issuer-role edges are taken only by the asset controller.

  predicate IssuerEdgesThroughController(i: Invocation) {
    i.call.Transition? ==> !IssuerEdge(i.call.expected, i.call.next)
  }

  predicate Driven(calls: seq<Invocation>) {
    forall j | 0 <= j < |calls| :: IssuerEdgesThroughController(calls[j])
  }

  predicate DrivenMove(w: World, m: Move) {
    m.Advance? && m.k in w.lifecycle.claims ==> !IssuerEdge(w.lifecycle.claims[m.k].state, m.next)
  }

  lemma DrivenStep(w: World, calls: seq<Invocation>)
    requires calls != [] && Driven(calls)
    ensures Driven(calls[..|calls| - 1])
    ensures var before := Run(w, calls[..|calls| - 1]);
            var plan := Plan(before, calls[|calls| - 1]);
            && Run(w, calls) == After(before, plan)
            && (plan.Ok? ==> Legal(before, plan.value) && DrivenMove(before, plan.value))
  {
    assert IssuerEdgesThroughController(calls[|calls| - 1]);
    LastStep(w, calls);
    if Plan(Run(w, calls[..|calls| - 1]), calls[|calls| - 1]).Ok? {
      DrivenInvocation(Run(w, calls[..|calls| - 1]), calls[|calls| - 1]);
    }
  }

  lemma DrivenInvocation(w: World, i: Invocation)
    requires IssuerEdgesThroughController(i) && Plan(w, i).Ok?
    ensures DrivenMove(w, Plan(w, i).value)
  {
  }

  predicate PassedResolution(log: seq<ClaimEvent>, k: Key) {
    exists e <- log :: e.claimKey == k && e.Transitioned? && e.previous.Shortfall? && e.next.Resolution?
  }

  /** A redeemed claim owes no tokens, and a closed one only if it went through resolution. */
  predicate Settled(w: World, k: Key) {
    k in w.lifecycle.claims ==>
      var s := w.lifecycle.claims[k].Effective();
      && (s.Redeemed? ==> w.controller.Outstanding(k) == 0)
      && (s.Resolution? ==> PassedResolution(w.lifecycle.log, k))
      && (s.Closed? ==> w.controller.Outstanding(k) == 0 || PassedResolution(w.lifecycle.log, k))
  }

  lemma ResolutionIsRemembered(w: World, m: Move, k: Key)
    requires Legal(w, m)
    ensures PassedResolution(w.lifecycle.log, k) ==> PassedResolution(Apply(w, m).lifecycle.log, k)
    ensures m.Advance? && m.k == k && w.lifecycle.claims[k].state.Shortfall? ==>
        PassedResolution(Apply(w, m).lifecycle.log, k)
  {
    var log, log' := w.lifecycle.log, Apply(w, m).lifecycle.log;
    ContinuesStep(w, m);
    assert forall e <- log :: e in log';
    if m.Advance? && m.k == k && w.lifecycle.claims[k].state.Shortfall? {
      assert log'[|log|] in log';
    }
  }

  lemma SettledStep(w: World, m: Move, k: Key)
    requires Legal(w, m) && DrivenMove(w, m) && Settled(w, k) && History(w.lifecycle, k) && Bounded(w, k)
    ensures Settled(Apply(w, m), k)
  {
    ResolutionIsRemembered(w, m, k);
    if Subject(m) != Some(k) { OtherClaimsUntouched(w, m, k); }
  }

  /** Redeemed implies nothing issued, and Closed with something issued implies a passage through Resolution. */
  lemma {:induction false} NoRedeemedClaimOwesTokens(w: World, calls: seq<Invocation>, k: Key)
    requires Genesis(w) && Driven(calls)
    ensures Settled(Run(w, calls), k)
  {
    if calls != [] {
      var before, last := Run(w, calls[..|calls| - 1]), calls[|calls| - 1];
      DrivenStep(w, calls);
      NoRedeemedClaimOwesTokens(w, calls[..|calls| - 1], k);
      StepAccounting(w, calls[..|calls| - 1], k);
      IssuanceBound(w, calls[..|calls| - 1], k);
      if Plan(before, last).Ok? { SettledStep(before, Plan(before, last).value, k); }
    }
  }

  /** No redeemed claim owes tokens, paused ones included. */
  predicate NoneOwed(w: World) {
    forall k <- w.lifecycle.claims :: w.lifecycle.claims[k].Effective().Redeemed? ==> w.controller.Outstanding(k) == 0
  }

  lemma NoneOwedByOne(w: World, m: Move, k: Key)
    requires Legal(w, m) && DrivenMove(w, m) && k in Apply(w, m).lifecycle.claims
    requires k in w.lifecycle.claims && w.lifecycle.claims[k].Effective().Redeemed? ==> w.controller.Outstanding(k) == 0
    ensures Apply(w, m).lifecycle.claims[k].Effective().Redeemed? ==> Apply(w, m).controller.Outstanding(k) == 0
  {
    if Subject(m) != Some(k) { OtherClaimsUntouched(w, m, k); }
  }

  lemma NoneOwedStays(w: World, i: Invocation)
    requires IssuerEdgesThroughController(i) && NoneOwed(w)
    ensures NoneOwed(Step(w, i))
  {
    if Plan(w, i).Ok? {
      var m := Plan(w, i).value;
      PlannedMovesAreLegal(w, i);
      DrivenInvocation(w, i);
      forall k | k in Step(w, i).lifecycle.claims && Step(w, i).lifecycle.claims[k].Effective().Redeemed?
        ensures Step(w, i).controller.Outstanding(k) == 0
      {
        NoneOwedByOne(w, m, k);
      }
    }
  }

  lemma DrivenRunsOweNothing(w: World, calls: seq<Invocation>)
    requires Genesis(w) && Driven(calls)
    ensures NoneOwed(Run(w, calls))
  {
    forall k | k in Run(w, calls).lifecycle.claims && Run(w, calls).lifecycle.claims[k].Effective().Redeemed?
      ensures Run(w, calls).controller.Outstanding(k) == 0
    {
      NoRedeemedClaimOwesTokens(w, calls, k);
    }
  }

  function IssueCount(log: seq<AssetEvent>, k: Key): nat {
    if log == [] then 0
    else IssueCount(log[..|log| - 1], k) + Bit(log[|log| - 1].AssetIssued? && log[|log| - 1].claimKey == k)
  }

  /** Each successful `issue` is one Controlled to Issued step and, driven by the controller, the other way round. */
  lemma {:induction false} IssuesAreIssuances(w: World, calls: seq<Invocation>, k: Key)
    requires Genesis(w) && Driven(calls)
    ensures IssueCount(Run(w, calls).controller.log, k) == Recount(Run(w, calls).lifecycle.log, k).issuances
  {
    if calls != [] {
      var before, last := Run(w, calls[..|calls| - 1]), calls[|calls| - 1];
      DrivenStep(w, calls);
      IssuesAreIssuances(w, calls[..|calls| - 1], k);
      StepAccounting(w, calls[..|calls| - 1], k);
      if Plan(before, last).Ok? { IssueCountStep(before, Plan(before, last).value, k); }
    }
  }

  lemma IssueCountStep(w: World, m: Move, k: Key)
    requires Legal(w, m) && DrivenMove(w, m) && History(w.lifecycle, k)
    requires IssueCount(w.controller.log, k) == Recount(w.lifecycle.log, k).issuances
    ensures IssueCount(Apply(w, m).controller.log, k) == Recount(Apply(w, m).lifecycle.log, k).issuances
  {
    IssuesLogged(w, m, k);
    if Subject(m) != Some(k) { OtherClaimsUntouched(w, m, k); } else { IssuancesTold(w, m); }
  }

  lemma IssuesLogged(w: World, m: Move, k: Key)
    requires Legal(w, m)
    ensures IssueCount(Apply(w, m).controller.log, k) == IssueCount(w.controller.log, k) + Bit(m.Issue? && m.k == k)
  {
    var log, log' := w.controller.log, Apply(w, m).controller.log;
    if log' != log {
      assert log' == log + [log'[|log|]];
      assert log'[..|log|] == log;
    }
  }

  /** The event stream counts an issuance for the claim exactly when it is issued. */
  lemma IssuancesTold(w: World, m: Move)
    requires Legal(w, m) && DrivenMove(w, m) && Subject(m).Some?
    ensures Recount(Apply(w, m).lifecycle.log, Subject(m).value).issuances ==
            Recount(w.lifecycle.log, Subject(m).value).issuances + Bit(m.Issue?)
  {
    var log, log', k := w.lifecycle.log, Apply(w, m).lifecycle.log, Subject(m).value;
    if log' != log {
      assert log' == log + [log'[|log|]];
      RecountAppend(log, log'[|log|], k);
    }
  }

  /** A claim that is issued again has been compensated once for every earlier issue and owes nothing. */
  lemma ReissueNeedsCompensation(w: World, calls: seq<Invocation>, i: Invocation)
    requires Genesis(w) && Driven(calls) && i.call.Issue? && Plan(Run(w, calls), i).Ok?
    ensures var v := Run(w, calls);
            && IssueCount(v.controller.log, i.call.k) == Recount(v.lifecycle.log, i.call.k).compensations
            && v.controller.Outstanding(i.call.k) == 0
  {
    StepAccounting(w, calls, i.call.k);
    IssuesAreIssuances(w, calls, i.call.k);
    IssueNeedsControlled(Run(w, calls), i);
  }

  lemma IssueNeedsControlled(w: World, i: Invocation)
    requires i.call.Issue? && Plan(w, i).Ok?
    ensures i.call.k in w.lifecycle.claims && w.lifecycle.claims[i.call.k].state.Controlled?
    ensures w.controller.Outstanding(i.call.k) == 0
  {
    IssueIsLegal(w, i);
  }

  // A funded claim whose tokens are already gone.

  predicate Spent(w: World, k: Key) {
    && k in w.lifecycle.claims && PauseWellFormed(w.lifecycle.claims[k])
    && Rank(w.lifecycle.claims[k].Effective()) >= 3 && !w.lifecycle.claims[k].Effective().Redeemed?
    && w.controller.Outstanding(k) == 0
  }

  /** A call that takes all of a claim's tokens away. */
  predicate TakesAll(w: World, i: Invocation) {
    && (i.call.Redeem? || i.call.ClawbackClaim?)
    && i.call.k in w.lifecycle.claims && i.call.amount == w.controller.Outstanding(i.call.k)
  }

  /** From funding on, a successful call that takes all of a claim's tokens leaves it spent, except the redemption
      of a Repaid claim, which finishes it. A clawback spends a Repaid claim too. */
  lemma TakingAllSpends(w: World, i: Invocation)
    requires TakesAll(w, i) && Plan(w, i).Ok? && PauseWellFormed(w.lifecycle.claims[i.call.k])
    requires Rank(w.lifecycle.claims[i.call.k].Effective()) >= 3 && !w.lifecycle.claims[i.call.k].Effective().Redeemed?
    ensures Spent(Step(w, i), i.call.k) <==> !(i.call.Redeem? && w.lifecycle.claims[i.call.k].state.Repaid?)
  {
    if i.call.Redeem? { RedeemingAllSpends(w, i); } else { ClawingBackAllSpends(w, i); }
  }

  lemma RedeemingAllSpends(w: World, i: Invocation)
    requires i.call.Redeem? && TakesAll(w, i) && Plan(w, i).Ok? && PauseWellFormed(w.lifecycle.claims[i.call.k])
    requires Rank(w.lifecycle.claims[i.call.k].Effective()) >= 3 && !w.lifecycle.claims[i.call.k].Effective().Redeemed?
    ensures Spent(Step(w, i), i.call.k) <==> !w.lifecycle.claims[i.call.k].state.Repaid?
  {
    RedeemIsLegal(w, i);
  }

  lemma ClawingBackAllSpends(w: World, i: Invocation)
    requires i.call.ClawbackClaim? && TakesAll(w, i) && Plan(w, i).Ok? && PauseWellFormed(w.lifecycle.claims[i.call.k])
    requires Rank(w.lifecycle.claims[i.call.k].Effective()) >= 3 && !w.lifecycle.claims[i.call.k].Effective().Redeemed?
    ensures Spent(Step(w, i), i.call.k)
  {
    RemovalsAreLegal(w, i);
  }

  lemma SpentStep(w: World, m: Move, k: Key)
    requires Legal(w, m) && DrivenMove(w, m) && Spent(w, k)
    ensures Spent(Apply(w, m), k)
    ensures w.lifecycle.claims[k].Effective().Repaid? ==> Apply(w, m).lifecycle.claims[k].Effective().Repaid?
  {
    if Subject(m) != Some(k) { OtherClaimsUntouched(w, m, k); }
  }

  /** A funded claim without tokens has lost its happy end: the finishing `redeem` needs a positive amount, so in
      every continuation driven by the controller the claim never becomes Redeemed, and once Repaid it stays
      Repaid. */
  lemma {:induction false} SpentForever(w: World, calls: seq<Invocation>, k: Key)
    requires Spent(w, k) && Driven(calls)
    ensures Spent(Run(w, calls), k)
    ensures w.lifecycle.claims[k].Effective().Repaid? ==> Run(w, calls).lifecycle.claims[k].Effective().Repaid?
  {
    if calls != [] {
      var before, last := Run(w, calls[..|calls| - 1]), calls[|calls| - 1];
      DrivenStep(w, calls);
      SpentForever(w, calls[..|calls| - 1], k);
      if Plan(before, last).Ok? { SpentStep(before, Plan(before, last).value, k); }
    }
  }

  /** A claim that is to be closed and never can be. */
  predicate Stranded(w: World, k: Key) {
    Spent(w, k) && w.lifecycle.claims[k].Effective().Repaid?
  }

  /** Who can finish a repaid claim, tokens aside: an operator with the Issuer role, two free versions, and a
      recorded holder who is not frozen. */
  predicate MayFinish(w: World, signers: set<Address>, k: Key, h: Address) {
    && w.controller.operator in signers && h in signers
    && w.lifecycle.HasRole(Issuer, w.controller.operator)
    && k in w.lifecycle.claims && w.lifecycle.claims[k].state.Repaid?
    && w.lifecycle.claims[k].stateVersion < U32_MAX - 1
    && Lookup(w.controller.holder, k) == Some(h) && h !in w.token.deauthorized
    && 0 <= w.controller.Outstanding(k)
  }

  /** And the holder has the tokens. */
  predicate CanFinish(w: World, signers: set<Address>, k: Key, h: Address) {
    MayFinish(w, signers, k, h) && w.controller.Outstanding(k) <= w.token.Balance(h)
  }

  predicate ClosesIn(w: World, calls: seq<Invocation>, k: Key) {
    k in Run(w, calls).lifecycle.claims && Run(w, calls).lifecycle.claims[k].state.Closed?
  }

  /** Exactly the repaid claims that still have tokens out can be closed by the controller. */
  lemma ClosableIffIssued(w: World, signers: set<Address>, k: Key, h: Address)
    requires CanFinish(w, signers, k, h) && PauseWellFormed(w.lifecycle.claims[k])
    ensures (exists calls :: Driven(calls) && ClosesIn(w, calls, k)) <==> w.controller.Outstanding(k) > 0
  {
    if w.controller.Outstanding(k) > 0 {
      var redeem, close := RedeemAll(w, signers, k, h), Invocation(signers, true, CloseClaim(w.controller.operator, k));
      RedeemingAllRedeems(w, signers, k, h);
      ClosingCloses(Step(w, redeem), signers, k);
      assert [redeem, close][..1] == [redeem] && [redeem][..0] == [];
      assert Run(w, [redeem]) == Step(w, redeem);
      assert Run(w, [redeem, close]) == Step(Step(w, redeem), close);
      assert Driven([redeem, close]) && ClosesIn(w, [redeem, close], k);
    } else {
      forall calls | Driven(calls)
        ensures !ClosesIn(w, calls, k)
      {
        SpentForever(w, calls, k);
      }
    }
  }

  function RedeemAll(w: World, signers: set<Address>, k: Key, h: Address): Invocation {
    Invocation(signers, true, Call.Redeem(w.controller.operator, k, h, w.controller.Outstanding(k)))
  }

  lemma RedeemingAllRedeems(w: World, signers: set<Address>, k: Key, h: Address)
    requires CanFinish(w, signers, k, h) && w.controller.Outstanding(k) > 0
    ensures Plan(w, RedeemAll(w, signers, k, h)) == Ok(Move.Redeem(k, h, w.controller.Outstanding(k), true))
  {
  }

  lemma ClosingCloses(w: World, signers: set<Address>, k: Key)
    requires w.controller.operator in signers && w.lifecycle.HasRole(Issuer, w.controller.operator)
    requires CanEnter(w.lifecycle, k) && w.lifecycle.claims[k].state.Redeemed? && w.controller.Outstanding(k) == 0
    ensures Plan(w, Invocation(signers, true, CloseClaim(w.controller.operator, k))) == Ok(CloseOut(k))
  {
  }
}
