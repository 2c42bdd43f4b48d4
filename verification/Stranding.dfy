/** Runs that strand a claim: redeemed in full while Funded, or by the finalizer while it is paused, it ends Repaid
    and can never be closed. */
module Stranding {
  import opened Options
  import opened Common
  import opened Ledger
  import opened ContractRuns
  import opened ClaimHistory
  import opened Issuance
  import opened HappyFinalizer
  import opened FinalizerPass
  import L = ClaimLifecycle

  const ACTOR: Address := Address(0)
  const CLAIM: Key := Key(1)
  const ATTESTATION: Attestation := Attestation(Key(2), CLAIM, Key(3), Key(4), 0, 0, 10, ACTOR)
  const TERMS: L.ClaimTerms := L.ClaimTerms(CLAIM, Key(5), Key(6), 1, Key(7), Key(2), 1)

  /** One actor administrates everything and holds every role that these runs need. */
  const ROLES: map<(Role, Address), bool> :=
    map[(Originator, ACTOR) := true, (Issuer, ACTOR) := true, (Facility, ACTOR) := true, (Servicer, ACTOR) := true,
        (PauserRole, ACTOR) := true]

  const FRESH: World := World(
    Registry(ACTOR, map[ACTOR := true], map[], map[]),
    Lifecycle(ACTOR, ROLES, map[], []),
    Controller(ACTOR, ACTOR, map[], map[], map[], map[], false, []),
    Token(map[], {}), 0)

  function By(call: Call): Invocation {
    Invocation({ACTOR}, true, call)
  }

  const OPENING: seq<Invocation> := [
    By(RegisterAttestation(ACTOR, ATTESTATION)), By(CreateClaim(ACTOR, TERMS)),
    By(ConfirmControl(ACTOR, CLAIM, Key(8), 10)), By(Call.Issue(ACTOR, CLAIM, ACTOR, 1))]

  const ENDING: seq<Invocation> := [
    By(Call.Transition(ACTOR, CLAIM, ClaimState.Issued, Funded)), By(Call.Redeem(ACTOR, CLAIM, ACTOR, 1)),
    By(Call.Transition(ACTOR, CLAIM, Funded, Settling)), By(Call.Transition(ACTOR, CLAIM, Settling, Repaid))]

  /** What the calls after the opening need to know. */
  predicate At(w: World, s: ClaimState, version: nat, outstanding: nat) {
    && w.now == 0 && w.lifecycle.admin == ACTOR && w.lifecycle.roles == ROLES
    && w.controller.operator == ACTOR && w.token.deauthorized == {}
    && CLAIM in w.lifecycle.claims
    && w.lifecycle.claims[CLAIM].state == s && w.lifecycle.claims[CLAIM].stateVersion == version
    && w.lifecycle.claims[CLAIM].hasPausedFrom == s.Paused?
    && (s.Paused? ==> w.lifecycle.claims[CLAIM].pausedFrom == Repaid)
    && w.controller.Outstanding(CLAIM) == outstanding == w.token.Balance(ACTOR)
    && Lookup(w.controller.holder, CLAIM) == Some(ACTOR)
  }

  const REGISTERED: World := FRESH.(registry := FRESH.registry.(attestations := map[Key(2) := ATTESTATION]))

  function WithClaim(claim: Claim, log: seq<ClaimEvent>): World {
    REGISTERED.(lifecycle := Lifecycle(ACTOR, ROLES, map[CLAIM := claim], log))
  }

  const CREATED: World := WithClaim(L.FreshClaim(TERMS), [Created(CLAIM)])

  const CONFIRMED: World := WithClaim(
    L.FreshClaim(TERMS).(state := Controlled, stateVersion := 2, evidenceHash := Some(Key(8)), controlExpiresAt := 10),
    [Created(CLAIM), Confirmed(CLAIM)])

  lemma RegisterStep()
    ensures Step(FRESH, OPENING[0]) == REGISTERED
  {
  }

  lemma CreateStep()
    ensures Step(REGISTERED, OPENING[1]) == CREATED
  {
  }

  lemma ConfirmStep()
    ensures Step(CREATED, OPENING[2]) == CONFIRMED
  {
  }

  lemma IssueStep()
    ensures At(Step(CONFIRMED, OPENING[3]), ClaimState.Issued, 3, 1)
  {
  }

  lemma OpeningIssues()
    ensures At(Run(FRESH, OPENING), ClaimState.Issued, 3, 1)
  {
    RunFour(FRESH, OPENING[0], OPENING[1], OPENING[2], OPENING[3]);
    RegisterStep();
    CreateStep();
    ConfirmStep();
    IssueStep();
  }

  lemma TransitionAdvances(w: World, s: ClaimState, next: ClaimState, version: nat, outstanding: nat)
    requires At(w, s, version, outstanding) && version < 100
    requires (s.Issued? && next.Funded?) || (s.Funded? && next.Settling?) || (s.Settling? && next.Repaid?)
    ensures At(Step(w, By(Call.Transition(ACTOR, CLAIM, s, next))), next, version + 1, outstanding)
  {
  }

  lemma RedeemEmpties(w: World, version: nat)
    requires At(w, Funded, version, 1)
    ensures At(Step(w, By(Call.Redeem(ACTOR, CLAIM, ACTOR, 1))), Funded, version, 0)
  {
  }

  lemma EndingStrands(w: World)
    requires At(w, ClaimState.Issued, 3, 1)
    ensures At(Run(w, ENDING), Repaid, 6, 0)
  {
    RunFour(w, ENDING[0], ENDING[1], ENDING[2], ENDING[3]);
    var funded := Step(w, ENDING[0]);
    TransitionAdvances(w, ClaimState.Issued, Funded, 3, 1);
    RedeemEmpties(funded, 4);
    var spent := Step(funded, ENDING[1]);
    TransitionAdvances(spent, Funded, Settling, 4, 0);
    TransitionAdvances(Step(spent, ENDING[2]), Settling, Repaid, 5, 0);
  }

  /** From fresh contracts, a driven run can lead to a Repaid claim that no driven run ever closes. */
  lemma ClaimsCanBeStranded()
    ensures Genesis(FRESH) && Driven(OPENING + ENDING)
    ensures var w := Run(FRESH, OPENING + ENDING);
            && Spent(w, CLAIM) && w.lifecycle.claims[CLAIM].state.Repaid?
            && forall calls :: Driven(calls) ==> !ClosesIn(w, calls, CLAIM)
  {
    OpeningIssues();
    EndingStrands(Run(FRESH, OPENING));
    RunConcat(FRESH, OPENING, ENDING);
    StrandedNeverCloses(Run(FRESH, OPENING + ENDING), CLAIM);
  }

  // The finalizer strands a claim that is paused while Repaid.

  const REPAYING: seq<Invocation> := [
    By(Call.Transition(ACTOR, CLAIM, ClaimState.Issued, Funded)), By(Call.Transition(ACTOR, CLAIM, Funded, Settling)),
    By(Call.Transition(ACTOR, CLAIM, Settling, Repaid)), By(Call.Pause(ACTOR, CLAIM))]

  const MANIFEST: Manifest := Manifest(ACTOR, ACTOR)
  const ROW: ClaimId := ClaimId(0)

  /** The claim is indexed, and its row says REPAID. */
  function Seen(w: World): Sys {
    Sys(w, map[ROW := ClaimRow(CLAIM, Repaid, 0)], map[CLAIM := Paused], {})
  }

  lemma PausesRepaid(w: World)
    requires At(w, Repaid, 6, 1)
    ensures At(Step(w, By(Call.Pause(ACTOR, CLAIM))), Paused, 7, 1)
  {
  }

  lemma RepayingPauses(w: World)
    requires At(w, ClaimState.Issued, 3, 1)
    ensures At(Run(w, REPAYING), Paused, 7, 1)
  {
    RunFour(w, REPAYING[0], REPAYING[1], REPAYING[2], REPAYING[3]);
    TransitionAdvances(w, ClaimState.Issued, Funded, 3, 1);
    TransitionAdvances(Step(w, REPAYING[0]), Funded, Settling, 4, 1);
    TransitionAdvances(Step(Step(w, REPAYING[0]), REPAYING[1]), Settling, Repaid, 5, 1);
    PausesRepaid(Step(Step(Step(w, REPAYING[0]), REPAYING[1]), REPAYING[2]));
  }

  lemma RedeemEmptiesPaused(w: World)
    requires At(w, Paused, 7, 1)
    ensures Plan(w, RedeemCall(MANIFEST, CLAIM, 1)).Ok?
    ensures At(Step(w, RedeemCall(MANIFEST, CLAIM, 1)), Paused, 7, 0)
  {
  }

  lemma ResumesRepaid(w: World)
    requires At(w, Paused, 7, 0)
    ensures At(Step(w, By(Call.Resume(ACTOR, CLAIM, Repaid))), Repaid, 8, 0)
  {
  }

  lemma RowIsTheCandidate(w: World)
    ensures CandidatesOf(Seen(w), [ROW]) == [Candidate(ROW, CLAIM, Paused, false)]
  {
    assert [ROW][..0] == [];
    assert CandidatesOf(Seen(w), []) == [];
    assert CandidateOf(Seen(w), ROW) == Candidate(ROW, CLAIM, Paused, false);
  }

  lemma CloseFails(w: World)
    requires At(w, Paused, 7, 1)
    ensures Redeemable(MANIFEST, Seen(w), CLAIM) && !Succeeds(MANIFEST, Seen(w), CLAIM)
    ensures AfterRedeem(MANIFEST, Seen(w), CLAIM).chain == Step(w, RedeemCall(MANIFEST, CLAIM, 1))
  {
    RedeemEmptiesPaused(w);
    if Succeeds(MANIFEST, Seen(w), CLAIM) {
      CloseNeedsRedeemed(MANIFEST, AfterRedeem(MANIFEST, Seen(w), CLAIM), CLAIM);
    }
  }

  /** A pass over one candidate. */
  lemma PassOverOne(m: Manifest, s: Sys, c: Candidate)
    requires TakenUp(c)
    ensures Completes(m, s, [c]) <==> Succeeds(m, s, c.claimKey)
    ensures PassLeaves(m, s, [c]) == FinishLeaves(m, s, c)
  {
    assert [c][..0] == [];
  }

  /** The row is taken up, its redemption goes through, and its close fails. */
  lemma PassBurnsAndFails(w: World)
    requires At(w, Paused, 7, 1)
    ensures var s, found := Seen(w), CandidatesOf(Seen(w), [ROW]);
            && |found| == 1 && TakenUp(found[0]) && !Completes(MANIFEST, s, found)
            && PassLeaves(MANIFEST, s, found).chain == Step(w, RedeemCall(MANIFEST, CLAIM, 1))
  {
    RowIsTheCandidate(w);
    CloseFails(w);
    PassOverOne(MANIFEST, Seen(w), Candidate(ROW, CLAIM, Paused, false));
  }

  function Resumed(w: World): World {
    Step(PassLeaves(MANIFEST, Seen(w), CandidatesOf(Seen(w), [ROW])).chain, By(Call.Resume(ACTOR, CLAIM, Repaid)))
  }

  lemma PassAndResumeStrand(w: World)
    requires At(w, Paused, 7, 1)
    ensures At(Resumed(w), Repaid, 8, 0) && Stranded(Resumed(w), CLAIM)
  {
    PassBurnsAndFails(w);
    RedeemEmptiesPaused(w);
    ResumesRepaid(Step(w, RedeemCall(MANIFEST, CLAIM, 1)));
  }

  lemma StrandedNeverCloses(w: World, k: Key)
    requires Stranded(w, k)
    ensures forall calls :: Driven(calls) ==> !ClosesIn(w, calls, k)
  {
    forall calls | Driven(calls) ensures !ClosesIn(w, calls, k) { SpentForever(w, calls, k); }
  }

  lemma RepaidPauseIsReached()
    ensures At(Run(FRESH, OPENING + REPAYING), Paused, 7, 1)
  {
    OpeningIssues();
    RepayingPauses(Run(FRESH, OPENING));
    RunConcat(FRESH, OPENING, REPAYING);
  }

  /** An undisturbed pass over the REPAID row fails, and after the resume the claim is Repaid and stranded. */
  predicate FinalizerStrands(w: World) {
    && !Completes(MANIFEST, Seen(w), CandidatesOf(Seen(w), [ROW]))
    && At(Resumed(w), Repaid, 8, 0) && Stranded(Resumed(w), CLAIM)
  }

  lemma PausedIsStranded(w: World)
    requires At(w, Paused, 7, 1)
    ensures FinalizerStrands(w)
  {
    PassBurnsAndFails(w);
    PassAndResumeStrand(w);
  }

  lemma RepaidPauseIsDriven()
    ensures Genesis(FRESH) && Driven(OPENING + REPAYING)
  {
  }

  /** From fresh contracts, a driven run can lead to a paused Repaid claim with tokens out that an
      undisturbed pass strands: it burns the tokens and fails, and after the resume no driven run ever closes it. */
  lemma FinalizerCanStrand()
    ensures Genesis(FRESH) && Driven(OPENING + REPAYING)
    ensures var w := Run(FRESH, OPENING + REPAYING); At(w, Paused, 7, 1) && FinalizerStrands(w)
    ensures forall calls :: Driven(calls) ==> !ClosesIn(Resumed(Run(FRESH, OPENING + REPAYING)), calls, CLAIM)
  {
    RepaidPauseIsDriven();
    RepaidPauseIsReached();
    PausedIsStranded(Run(FRESH, OPENING + REPAYING));
    StrandedNeverCloses(Resumed(Run(FRESH, OPENING + REPAYING)), CLAIM);
  }
}
