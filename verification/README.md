# Jejak: a verified model

Jejak turns receivables into on-chain claims. This project models four of its parts in Dafny and proves what they
keep over every run.

1. **The contracts** (`Options`, `Sequences`, `Common`, `Ledger`, `EligibilityRegistry`, `ClaimLifecycle`,
   `AssetController`, `ContractRuns`, `Entrypoints`, `Authority`, `ClaimHistory`, `ClaimProvenance`, `Issuance`,
   `Closing`, `Stranding`, `Totals`, `Supply`). Three Soroban contracts and the asset they mint, with their stores as classes. An entrypoint is one
   atomic step: a contract error, a host trap or a failing nested call reverts all three. The `Plan...` functions say
   what the guards answer and the `Apply...` functions what a successful call changes; the methods of the classes
   perform the same steps one write at a time and are proved to agree with them, including what they undo.
   `ContractRuns.Run` is any sequence of calls by any callers. `Entrypoints` says of each call, by its signers, its
   arguments and the stores, when it succeeds, what it then writes and what each error code means; `Authority` says
   whose signature each change needs.
2. **The finalizer** (`HappyFinalizer`, `FinalizerPass`, `TestnetFinalizer`). Redeem, release, close and record, with
   other parties acting and a lost answer or a crash possible at every remote call, and the later promotion of the
   claim row. The first module has the system and its safety, the second what a pass is meant to do, the third the
   program.
3. **The exactly-once layer** (`Mutations`, `MutationHistory`, `PartnerJournal`, `PartnerHistory`,
   `StellarSubmitter`, `OutboxLeases`). Idempotent mutations in one transaction, the partner journal in several, lookup
   around chain submissions, and leases on outbox events.
4. **Texts** (`Texts`, `NumberText`, `JsonText`, `CanonicalJson`, `CanonicalOrder`, `Redaction`, `MoneyText`).
   Canonical JSON with an inverse parser, recursive redaction, and printed amounts with theirs.

Conventions. Amounts are `i128`, versions `u32`, times `u64`. "Effective state" is the state a paused claim was paused
from, otherwise its state. A run is *driven* when the edges of the Issuer role are taken only by the asset controller;
lemmas that need this say `Driven`. A collation gives every string a rank and may give two strings the same one, as
`localeCompare` can; hashing is injective, so the canonical text stands for the hash. Text in `Texts` is UTF-16. A
finite number is its shortest decimal, which is what JavaScript prints and what determines it.

Some results are about what the code does not do:

- From funding on, a call that takes all of a claim's tokens leaves it spent unless it is the redemption of a claim in
  state Repaid (`Issuance.TakingAllSpends`). As long as tokens move only through claims, a claim that has come to
  Repaid, paused or not, with three versions left, can be closed exactly when something is issued
  (`Closing.RepaidClosableIffIssued`). A claim redeemed in full while Funded therefore ends Repaid and stays so
  (`Stranding.ClaimsCanBeStranded`).
- The finalizer does not read the claim's state on chain, and its redemption is not undone when the close fails. It
  spends a claim exactly when that is not in state Repaid at the moment (`FinalizerPass.RedemptionSpendsIff`): one that
  is paused while Repaid, with its tokens out, is burned, fails to close and is stranded once resumed
  (`Stranding.FinalizerCanStrand`).
- The first finish that fails ends a pass, and the candidates behind it are not taken up. As long as no redeemed claim
  owes tokens, an undisturbed pass completes exactly if each claim is workable in its turn
  (`TestnetFinalizer.TestnetHappyClaimFinalizer.FinalizeRepaidClaims`, `FinalizerPass.CompletesIffReady`). No pass with
  a stranded candidate completes, and no undisturbed one with a Closed claim that is neither indexed nor recorded
  (`FinalizerPass.StrandedAndClosedAreBlocked`).
- Canonical JSON ignores member order exactly when no two member names tie in the collation
  (`CanonicalOrder.OrderIndependentIffTieFree`).
- A mutation whose response is `null` commits once but is never replayed: a repeated call is refused
  (`MutationHistory.LaterCallsReplay`). The outbox index ignores actor and operation, so scopes that differ only there
  exclude each other (`MutationHistory.CollidingScopesFail`, `MutationHistory.NewScopesCommitIff`).
- After a receipt is committed, a non-retryable failure replaces it in what `begin` answers, for good
  (`PartnerHistory.BeginReplaysUntilFailure`). A retryable one leaves the receipt and takes SUCCEEDED off the operation
  (`PartnerHistory.StatusAfterCommit`).
- A submission that takes effect after the follow-up lookup can be submitted twice. From what it has heard a caller can
  be certain of at most one effect exactly when it has not called again, past configuration errors, after a first
  answer in doubt (`StellarSubmitter.AtMostOnceIffNotRetriedInDoubt`).
- Arrays directly inside arrays come out of redaction as records of their indices
  (`Redaction.NestedArraysBecomeRecords`).
- A compact amount reads "1000K" for 999,950 up to a million whole units, and likewise "1000M" and "1000B", exactly
  (`MoneyText.CompactFormOverflowsIff`, `MoneyText.ThousandThousand`).

`pause` and `resume` add one to the version without a check where the other entrypoints return `ArithmeticOverflow`;
since the release profile turns overflow checks on (`contracts/soroban/Cargo.toml`), an overflow there is a trap.

## Model

| member | source | states |
|---|---|---|
| EligibilityRegistry.EligibilityRegistry.RegisterAttestation | contracts/soroban/crates/eligibility-registry/src/lib.rs:71-104 | registers a valid, unexpired attestation of an enabled oracle under a fresh key, or answers the first failing guard and changes nothing |
| EligibilityRegistry.EligibilityRegistry.RevokeAttestation | contracts/soroban/crates/eligibility-registry/src/lib.rs:106-134 | revokes a registered attestation once, for the admin or an enabled oracle |
| EligibilityRegistry.EligibilityRegistry.GetAttestation | contracts/soroban/crates/eligibility-registry/src/lib.rs:136-148 | the stored attestation, or AttestationMissing |
| EligibilityRegistry.EligibilityRegistry.IsActive | contracts/soroban/crates/eligibility-registry/src/lib.rs:150-160 | registered, not revoked and before its expiry |
| ClaimLifecycle.ClaimLifecycle.CreateClaim | contracts/soroban/crates/claim-lifecycle/src/lib.rs:90-142 | stores one Eligible claim at version 1 for an active attestation that names it, or changes nothing |
| ClaimLifecycle.ClaimLifecycle.ConfirmControl | contracts/soroban/crates/claim-lifecycle/src/lib.rs:144-186 | takes an Eligible claim to Controlled with evidence and an expiry in the future, or changes nothing |
| ClaimLifecycle.ClaimLifecycle.Transition | contracts/soroban/crates/claim-lifecycle/src/lib.rs:188-228 | answers the guards in order; a success enters the next state with the version and event one further, a failure changes nothing |
| ClaimLifecycle.ClaimLifecycle.Pause | contracts/soroban/crates/claim-lifecycle/src/lib.rs:230-266 | suspends a live claim and remembers where from; a full version counter traps |
| ClaimLifecycle.ClaimLifecycle.Resume | contracts/soroban/crates/claim-lifecycle/src/lib.rs:268-306 | returns to the remembered state, or from Issued to Controlled; a full version counter traps |
| ClaimLifecycle.ClaimLifecycle.AttestationActive | contracts/soroban/crates/claim-lifecycle/src/lib.rs:319-324 | whether the attestation of a stored claim is active now, or NotFound |
| AssetController.AssetController.AuthorizeHolder | contracts/soroban/crates/asset-controller/src/lib.rs:139-158 | authorizes or deauthorizes a holder on the asset and in the Frozen store together |
| AssetController.AssetController.Issue | contracts/soroban/crates/asset-controller/src/lib.rs:160-217 | mints, records issuance and holder and takes Controlled to Issued, or leaves all three contracts as before |
| AssetController.AssetController.Redeem | contracts/soroban/crates/asset-controller/src/lib.rs:219-264 | burns, lowers the issuance and, for the last token of a Repaid claim, takes it to Redeemed, or leaves everything as before; answers what remains |
| AssetController.AssetController.Freeze | contracts/soroban/crates/asset-controller/src/lib.rs:266-293 | freezes a holder for the operator or a pauser |
| AssetController.AssetController.Clawback | contracts/soroban/crates/asset-controller/src/lib.rs:295-313 | removes tokens from a holder without touching any claim's issuance |
| AssetController.AssetController.ClawbackClaim | contracts/soroban/crates/asset-controller/src/lib.rs:318-355 | removes tokens of a claim's holder and lowers the claim's issuance alike |
| AssetController.AssetController.CloseClaim | contracts/soroban/crates/asset-controller/src/lib.rs:357-375 | takes Redeemed to Closed when nothing is issued |
| ContractRuns.ValidTransitionIff | contracts/soroban/crates/claim-lifecycle/src/lib.rs:372-406 | an edge is accepted exactly when the graph has it and the actor has the one role that may leave the state; issuing also needs unexpired control |
| ContractRuns.PlannedMovesAreLegal | contracts/soroban/crates/asset-controller/src/lib.rs:160-375 | every successful call of any contract is a legal move: the facts about claim, issuance, holder and balance that the properties below rest on |
| Entrypoints.SetOracleExactly | contracts/soroban/crates/eligibility-registry/src/lib.rs:57-69 | succeeds exactly for the signing admin and writes one oracle flag |
| Entrypoints.RegisterExactly | contracts/soroban/crates/eligibility-registry/src/lib.rs:71-104 | succeeds exactly for a valid, unexpired attestation signed by its own enabled oracle under a fresh key, and then only that key is written |
| Entrypoints.RevokeExactly | contracts/soroban/crates/eligibility-registry/src/lib.rs:106-134 | succeeds exactly for the admin or an enabled oracle, on a registered key not yet revoked, and then only the revocation is written |
| Entrypoints.RegistryErrors | contracts/soroban/crates/eligibility-registry/src/lib.rs:71-134 | each error code of the registry is true of the call |
| Entrypoints.SetRoleExactly | contracts/soroban/crates/claim-lifecycle/src/lib.rs:74-88 | succeeds exactly for the signing admin and writes one role flag |
| Entrypoints.CreateExactly | contracts/soroban/crates/claim-lifecycle/src/lib.rs:90-142 | succeeds exactly for a signing Originator, positive amounts, a new claim key and an active attestation that names it; one claim and one event are added |
| Entrypoints.CreateErrors | contracts/soroban/crates/claim-lifecycle/src/lib.rs:90-115 | each error code of `create_claim` is true of the call |
| Entrypoints.ConfirmExactly | contracts/soroban/crates/claim-lifecycle/src/lib.rs:144-186 | succeeds exactly for a signing Originator or Control role, a future expiry and an Eligible claim; evidence, expiry, state and version change, nothing else |
| Entrypoints.ConfirmErrors | contracts/soroban/crates/claim-lifecycle/src/lib.rs:144-186 | each error code of `confirm_control` is true of the call |
| Entrypoints.TransitionExactly | contracts/soroban/crates/claim-lifecycle/src/lib.rs:188-228 | succeeds exactly on an edge of the graph from the expected state for the one role that may leave it; state, version and event follow |
| Entrypoints.PauseExactly | contracts/soroban/crates/claim-lifecycle/src/lib.rs:230-266 | succeeds exactly for a signing Pauser on a live claim that is not paused; the origin is remembered |
| Entrypoints.ResumeExactly | contracts/soroban/crates/claim-lifecycle/src/lib.rs:268-306 | succeeds exactly for the signing admin on a paused claim, to where it was paused or from Issued to Controlled |
| Entrypoints.PauseErrors | contracts/soroban/crates/claim-lifecycle/src/lib.rs:230-306 | each error code of `pause` and `resume` is true of the call |
| Entrypoints.SetPauserExactly | contracts/soroban/crates/asset-controller/src/lib.rs:112-123 | succeeds exactly for the signing admin and writes one pauser flag |
| Entrypoints.SetGlobalPauseExactly | contracts/soroban/crates/asset-controller/src/lib.rs:125-137 | succeeds exactly for a signing pauser and sets the flag |
| Entrypoints.AuthorizeHolderExactly | contracts/soroban/crates/asset-controller/src/lib.rs:139-158 | succeeds exactly for the signing operator while nothing is paused; the Frozen entry and the asset's own authorization become opposite |
| Entrypoints.FreezeExactly | contracts/soroban/crates/asset-controller/src/lib.rs:266-293 | succeeds exactly for the signing operator or a signing pauser, paused or not, and freezes on both sides |
| Entrypoints.IssueExactly | contracts/soroban/crates/asset-controller/src/lib.rs:160-217 | succeeds exactly for the signing operator with the Issuer role while nothing is paused, on a Controlled claim under unexpired control and an active attestation with nothing outstanding, within its principal, to a holder neither frozen nor full |
| Entrypoints.IssueGives | contracts/soroban/crates/asset-controller/src/lib.rs:189-217 | a success records amount, holder and event, credits the holder and moves the claim to Issued, and nothing else changes |
| Entrypoints.RedeemExactly | contracts/soroban/crates/asset-controller/src/lib.rs:219-264 | succeeds exactly with both signatures for at most what is outstanding, for the recorded holder, with the tokens there; a last token of a Repaid claim also needs its transition |
| Entrypoints.RedeemGives | contracts/soroban/crates/asset-controller/src/lib.rs:241-264 | a success lowers issuance and balance alike and publishes that, and moves exactly a Repaid claim without tokens left to Redeemed |
| Entrypoints.ClawbackExactly | contracts/soroban/crates/asset-controller/src/lib.rs:295-313 | succeeds exactly for the signing operator and at most the balance; only balance and log change |
| Entrypoints.ClawbackClaimExactly | contracts/soroban/crates/asset-controller/src/lib.rs:318-355 | succeeds exactly for the signing operator and at most what the recorded holder owes and has |
| Entrypoints.ClawbackClaimGives | contracts/soroban/crates/asset-controller/src/lib.rs:340-354 | a success lowers issuance and balance alike and publishes what remains; the claim's record stays |
| Entrypoints.CloseExactly | contracts/soroban/crates/asset-controller/src/lib.rs:357-375 | succeeds exactly for the signing operator with the Issuer role on a Redeemed claim with nothing issued |
| Entrypoints.RemovalErrors | contracts/soroban/crates/asset-controller/src/lib.rs:219-375 | each error code of `redeem`, `clawback_claim` and `close_claim` is true of the call |
| Entrypoints.TransitionErrors | contracts/soroban/crates/claim-lifecycle/src/lib.rs:372-406 | each error code of `transition` is true of the call: missing, terminal, elsewhere, not for this caller, out of versions |
| Entrypoints.IssueErrors | contracts/soroban/crates/asset-controller/src/lib.rs:160-188 | each error code of `issue` is true of the call |
| Authority.RegistryChangesAreAuthorized | contracts/soroban/crates/eligibility-registry/src/lib.rs:57-134 | whatever is called, oracles change only with the admin's signature, an attestation appears only with that of its own enabled oracle, and revocations change only with one of the two |
| Authority.ClaimChangesAreAuthorized | contracts/soroban/crates/claim-lifecycle/src/lib.rs:90-306 | whatever is called, a claim changes only as a signer's role allows: Originator or Control to confirm, the role of the edge to advance, a Pauser to pause, the admin to resume |
| Authority.RolesAreAuthorized | contracts/soroban/crates/claim-lifecycle/src/lib.rs:74-88 | whatever is called, roles change only with the admin's signature |
| Authority.SwitchesAreAuthorized | contracts/soroban/crates/asset-controller/src/lib.rs:112-158 | whatever is called, pausers change only with the admin's signature, the global pause with a pauser's, and nobody is thawed but by the operator while nothing is paused |
| Authority.IssuanceChangesAreAuthorized | contracts/soroban/crates/asset-controller/src/lib.rs:160-355 | whatever is called, an issuance changes only with the operator's signature, rises only by an issue while nothing is paused, and falls only by a clawback or a redemption that the recorded holder signed too |
| Authority.TokensLeaveWithConsent | contracts/soroban/crates/asset-controller/src/lib.rs:219-355 | whatever is called, a balance falls only with the operator's signature or that of a spender the asset accepts |
| Authority.BreakerHolds | contracts/soroban/crates/asset-controller/src/lib.rs:125-182 | in every run in which the global pause is not lifted, no issuance rises, nothing is issued and nobody is thawed |
| Authority.BreakerAnswers | contracts/soroban/crates/asset-controller/src/lib.rs:139-168 | while paused, `issue` and `authorize_holder` answer the signing operator CircuitBreakerActive |
| Authority.EveryIssueIsSigned | contracts/soroban/crates/asset-controller/src/lib.rs:160-168 | in every run from fresh contracts each logged issue is one call of `issue` signed by the operator while nothing was paused |
| Authority.CreatedClaimsKeepTheirTerms | contracts/soroban/crates/claim-lifecycle/src/lib.rs:104-133 | whatever happens before and after, a created claim has the seven identity and principal fields its originator gave, and at most that principal is outstanding |
| ClaimHistory.EdgesRaiseRankByOne | contracts/soroban/crates/claim-lifecycle/src/lib.rs:378-401 | every edge goes one step further from Eligible, at most seven, and never from a terminal or paused state |
| ClaimHistory.OtherClaimsUntouched | contracts/soroban/crates/claim-lifecycle/src/lib.rs:188-306 | a step on one claim leaves the record, issuance, holder and history of every other claim alone |
| ClaimHistory.StepAccounting | contracts/soroban/crates/claim-lifecycle/src/lib.rs:117-306 | in every run the events replay to the stored state, the version is 1 + rank + compensations + pauses + resumes, pauses are resumes plus one exactly while Paused, and issuances are compensations plus one exactly from Issued on |
| ClaimHistory.ForwardStepsBounded | contracts/soroban/crates/claim-lifecycle/src/lib.rs:282-294 | with k compensating resumes a claim takes at most 7 + k forward steps |
| ClaimProvenance.RunsContinue | contracts/soroban/crates/eligibility-registry/src/lib.rs:89-125 | in every continuation attestations and revocations stay as written, claims keep identity and principal, terminal claims never change, logs only grow |
| ClaimProvenance.ClaimsKeepTheirAttestation | contracts/soroban/crates/claim-lifecycle/src/lib.rs:104-133 | in every run each claim refers to a registered attestation naming that claim |
| ClaimProvenance.AttestationsAreNeverShared | contracts/soroban/crates/claim-lifecycle/src/lib.rs:113-124 | in every run distinct claims have distinct attestations |
| ClaimProvenance.PausesRememberALiveOrigin | contracts/soroban/crates/claim-lifecycle/src/lib.rs:243-294 | in every run Paused holds exactly when an origin is remembered, and the origin is neither Paused nor terminal |
| ClaimProvenance.DeadAttestationsStayDead | contracts/soroban/crates/eligibility-registry/src/lib.rs:117-160 | once revoked or expired an attestation is inactive for ever, and no claim bound to it is created or issued |
| ClaimProvenance.IssueGuardsMatchTransition | contracts/soroban/crates/asset-controller/src/lib.rs:167-208 | once `issue`'s checks and the mint pass, it fails exactly for a missing Issuer role or a full version counter, and then nothing has changed |
| Issuance.IssuanceBound | contracts/soroban/crates/asset-controller/src/lib.rs:169-200 | in every run 0 <= issued <= approved principal, and positive issuance implies an existing claim with control evidence that has left Eligible |
| Issuance.CloseIsForever | contracts/soroban/crates/asset-controller/src/lib.rs:357-375 | after a successful close the claim is Closed with nothing issued in every later state |
| Issuance.NoRedeemedClaimOwesTokens | contracts/soroban/crates/asset-controller/src/lib.rs:241-255 | in every driven run a Redeemed claim has nothing issued, and a Closed one with something issued went through Resolution |
| Issuance.IssuesAreIssuances | contracts/soroban/crates/asset-controller/src/lib.rs:202-208 | in every driven run the successful `issue` calls are the Controlled to Issued steps |
| Issuance.ReissueNeedsCompensation | contracts/soroban/crates/asset-controller/src/lib.rs:170-188 | a claim that can be issued has had one compensating resume per earlier issue and has nothing outstanding |
| Issuance.TakingAllSpends | contracts/soroban/crates/asset-controller/src/lib.rs:228-355 | from funding on, a successful call that takes all of a claim's tokens leaves it spent exactly if it is not the redemption of a Repaid claim |
| Issuance.SpentForever | contracts/soroban/crates/asset-controller/src/lib.rs:228-255 | a funded claim without tokens never becomes Redeemed in a driven run, and once Repaid stays Repaid |
| Issuance.ClosableIffIssued | contracts/soroban/crates/asset-controller/src/lib.rs:219-375 | a Repaid claim whose operator, holder and versions allow it can be closed by some driven run exactly when something is issued |
| Issuance.DrivenRunsOweNothing | contracts/soroban/crates/asset-controller/src/lib.rs:241-255 | in every driven run no claim whose effective state is Redeemed has tokens out |
| Closing.RepaidClosableIffIssued | contracts/soroban/crates/asset-controller/src/lib.rs:219-375 | in every driven run whose tokens move only through claims, a claim effectively Repaid with three versions left is closed by some continuation exactly when something is issued |
| Stranding.ClaimsCanBeStranded | contracts/soroban/crates/asset-controller/src/lib.rs:219-375 | a run from fresh contracts to a Repaid claim that no driven run ever closes |
| Stranding.FinalizerCanStrand | apps/api/src/runtime/stellar/happy-finalizer.ts:43-69 | a run from fresh contracts to a claim paused while Repaid; an undisturbed pass burns its tokens and fails, and after the resume no driven run ever closes it |
| Supply.SupplyConservation | contracts/soroban/crates/asset-controller/src/lib.rs:160-355 | in every run balances plus unscoped removals equal the total issuance of all claims |
| Supply.BalancesAreHoldings | contracts/soroban/crates/asset-controller/src/lib.rs:196-243 | without transfers and unscoped removals each balance is the issuance of the claims held by that account |
| Supply.CheckedAmountsAreCovered | contracts/soroban/crates/asset-controller/src/lib.rs:230-240 | and so a redemption or claim clawback that passes its checks is covered by the balance |
| HappyFinalizer.CrashSafety | apps/api/src/runtime/stellar/happy-finalizer.ts:34-172 | from a Repaid claim, whatever happens in whatever order: burned plus issued is constant, a Closed claim has burned all of it, it closes on chain at most once, and the row becomes CLOSED with version + 1 at most once and only after the chain |
| HappyFinalizer.ClosedAtMostOnce | contracts/soroban/crates/asset-controller/src/lib.rs:363-373 | in every run exactly one closing is recorded for a Closed claim and none for another |
| HappyFinalizer.RepaidClaimsWindDown | apps/api/src/runtime/stellar/happy-finalizer.ts:43-46 | every claim a driven run has brought to Repaid meets the start condition of crash safety |
| FinalizerPass.CandidatesAreTheRepaidRows | apps/api/src/runtime/stellar/happy-finalizer.ts:76-104 | reading every row once, each candidate's row is REPAID and each REPAID row with a projection has one candidate, with its projected state and pending flag |
| FinalizerPass.OnlyRepaidRowsAreTakenUp | apps/api/src/runtime/stellar/happy-finalizer.ts:34-104 | a pass leaves the record, issuance, holder and burned total of every claim alone that no REPAID row carries |
| FinalizerPass.SkippedClaimsAreLeft | apps/api/src/runtime/stellar/happy-finalizer.ts:38-43 | a candidate that is pending or projected CLOSED has nothing done to its claim on chain |
| FinalizerPass.SuccessLeaves | apps/api/src/runtime/stellar/happy-finalizer.ts:44-70 | a finish that succeeds leaves the claim Closed with nothing issued, its row pending, and rows and projections as before |
| FinalizerPass.CountsHandled | apps/api/src/runtime/stellar/happy-finalizer.ts:36-73 | the number answered is that of the candidates projected CLOSED or not pending |
| FinalizerPass.CrashRecovery | apps/api/src/runtime/stellar/happy-finalizer.ts:34-74 | wherever a finish crashes while nobody else acts, a claim not Closed can be finished again exactly if it could be in the first place, and is then Closed; a Closed one, once indexed, is promoted to CLOSED under the next version |
| FinalizerPass.SucceedsIffWorkable | apps/api/src/runtime/stellar/happy-finalizer.ts:45-69 | as long as no redeemed claim owes tokens, redemption and close go through exactly for a Repaid claim with covered tokens or a Redeemed one, with operator, role, holder and versions in order |
| FinalizerPass.RedemptionSpendsIff | apps/api/src/runtime/stellar/happy-finalizer.ts:45-55 | the finalizer's redemption of a funded claim not yet redeemed spends it exactly if it is not in state Repaid |
| FinalizerPass.CompletesIffReady | apps/api/src/runtime/stellar/happy-finalizer.ts:37-72 | as long as no redeemed claim owes tokens, an undisturbed pass completes exactly if each claim taken up is workable in its turn |
| FinalizerPass.AbleAndCoveredIsReady | apps/api/src/runtime/stellar/happy-finalizer.ts:37-72 | an undisturbed pass goes through if each claim taken up can be finished, none comes up twice and the holder has the tokens for all |
| FinalizerPass.OwedIsCovered | apps/api/src/runtime/stellar/happy-finalizer.ts:45-52 | as long as tokens move only through claims, the holder has the tokens for all |
| FinalizerPass.StrandedAndClosedAreBlocked | apps/api/src/runtime/stellar/happy-finalizer.ts:63-68 | a stranded claim, or a Closed one with nothing issued, fails at the close |
| TestnetFinalizer.TestnetHappyClaimFinalizer.RunsAreSafe | apps/api/src/runtime/stellar/happy-finalizer.ts:34-74 | whatever the finalizer object has been through, crash safety holds of its state |
| TestnetFinalizer.TestnetHappyClaimFinalizer.RedeemOutstanding | apps/api/src/runtime/stellar/happy-finalizer.ts:45-55 | undisturbed, it succeeds exactly if nothing is issued or the redemption of everything is accepted, and has then redeemed it; alone, the redemption happens or not |
| TestnetFinalizer.TestnetHappyClaimFinalizer.Finish | apps/api/src/runtime/stellar/happy-finalizer.ts:44-70 | success means the claim is Closed on chain; undisturbed, it succeeds exactly if redemption and close do, and otherwise leaves the redemption alone done, if that was accepted, and nothing else; alone, a crash leaves one of the steps in between |
| TestnetFinalizer.TestnetHappyClaimFinalizer.PromoteIndexedClose | apps/api/src/runtime/stellar/happy-finalizer.ts:154-172 | only for a projection of CLOSED; the row ends CLOSED |
| TestnetFinalizer.TestnetHappyClaimFinalizer.Candidates | apps/api/src/runtime/stellar/happy-finalizer.ts:76-104 | the candidates of the current state, in the order the table is read |
| TestnetFinalizer.TestnetHappyClaimFinalizer.FinalizeRepaidClaims | apps/api/src/runtime/stellar/happy-finalizer.ts:34-74 | a completed pass has counted and handled exactly the candidates at the query: those not skipped are Closed on chain, those projected CLOSED are CLOSED in the database, none was stranded; undisturbed, it completes exactly if each finish succeeds in its turn, otherwise leaves what was done up to and including the first that fails, and either way leaves every claim alone that no REPAID row carries |
| Mutations.AuditKeepsItsHash | apps/api/src/reliability/mutation-coordinator.ts:68 | whatever attributes are passed, the redacted audit row records the payload hash and success, and nothing sensitive |
| Mutations.AuditKeepsAttributes | apps/api/src/reliability/mutation-coordinator.ts:68 | every other attribute that is not sensitive is in the audit row too, redacted in depth |
| Mutations.PostgresMutationUnitOfWork.Claim | apps/api/src/reliability/postgres-mutation-unit.ts:51-87 | new exactly when the scope is unknown, replay exactly when the hash matches and the response is not null |
| Mutations.PostgresMutationUnitOfWork.AppendOutbox | apps/api/src/reliability/postgres-mutation-unit.ts:116-132 | one row for the active scope, refused when tenant, event type and key are taken |
| Mutations.PostgresMutationUnitOfWork.Complete | apps/api/src/reliability/postgres-mutation-unit.ts:133-151 | completes the record with the matching hash, or throws for a response that cannot be hashed |
| Mutations.MutationCoordinator.Execute | apps/api/src/reliability/mutation-coordinator.ts:54-73 | for any mutator and any fault: either the whole effect or none, and the answer the caller hears |
| MutationHistory.RunsFromEmptyAreConsistent | apps/api/src/db/schema/reliability.ts:29-35 | in every run each record is complete and has exactly one audit row and one outbox row, both redacted, with its hash; no stray domain rows |
| MutationHistory.AtMostOneCommit | apps/api/src/reliability/postgres-mutation-unit.ts:53-66 | in every run a scope commits at most once, and exactly when its record appears |
| MutationHistory.RecordsHaveOneOrigin | apps/api/src/reliability/mutation-coordinator.ts:63-72 | every record of a run belongs to one committed request: its hash, its response, exactly its writes, its audit row and its event |
| MutationHistory.FirstCallHears | apps/api/src/reliability/mutation-coordinator.ts:63-72 | for a scope without a record the caller is answered exactly if the request commits and the answer arrives, and then with what the mutator answered; a commit with a lost answer is an error |
| MutationHistory.FailedRequestsLeaveNothing | apps/api/src/reliability/mutation-coordinator.ts:63-72 | a failure before the commit, a response or payload that cannot be hashed, or a taken event leaves all tables as they were |
| MutationHistory.IdentityIsNamed | apps/api/src/reliability/mutation-coordinator.ts:62 | what is hashed is the operation and the payload under their names |
| MutationHistory.LaterCallsReplay | apps/api/src/reliability/postgres-mutation-unit.ts:67-86 | after a commit, every later call of the scope changes nothing, whatever fails; without a fault it is answered with the stored response exactly when it hashes alike and the response is not null |
| MutationHistory.HashIffSame | apps/api/src/reliability/mutation-coordinator.ts:62 | different payloads never hash alike; equal ones up to member order do, where the collation tells their names apart |
| MutationHistory.ExactlyOnce | apps/api/src/reliability/mutation-coordinator.ts:54-73 | after a commit with a response, in every later state and whatever fails, nothing changes; another payload is refused, and the same payload hears that response where the collation tells its names apart; the first caller hears what the mutator answered, the same up to member order and dropped members |
| MutationHistory.StoredIsSame | apps/api/src/db/schema/reliability.ts:22 | a stored response differs from the response at most in member order and dropped undefined members |
| MutationHistory.CollidingScopesFail | apps/api/src/db/schema/reliability.ts:86-87 | after a commit a different scope with the same tenant, event type and key fails whole for ever |
| MutationHistory.NewScopesCommitIff | apps/api/src/db/schema/reliability.ts:86-87 | a sound, encodable request of an unknown scope commits exactly if no earlier one of the run has committed its tenant, event type and key |
| PartnerJournal.PostgresPartnerJournal.Begin | apps/api/src/modules/shared/postgres-partner-journal.ts:47-73 | opens the operation of a new scope, or answers conflict, replay, refusal or resume; an aborted transaction changes nothing |
| PartnerJournal.PostgresPartnerJournal.CommitReceipt | apps/api/src/modules/shared/postgres-partner-journal.ts:75-102 | the first receipt is stored with step, status, body, audit and event together; a later one changes nothing and is answered only if it hashes alike |
| PartnerJournal.PostgresPartnerJournal.RecordFailure | apps/api/src/modules/shared/postgres-partner-journal.ts:111-121 | sets the status, replaces the body if the failure is not retryable, and audits |
| PartnerHistory.RunsFromEmptyAreConsistent | apps/api/src/modules/shared/postgres-partner-journal.ts:47-121 | in every run an operation has at most one receipt step and exactly one completion audit beside it, scopes own distinct operations, bodies agree with steps, and one event exists per completed tenant and key |
| PartnerHistory.EveryResumeIsTheSame | apps/api/src/modules/shared/postgres-partner-journal.ts:56-71 | after NEW or RESUME no later `begin` of the scope answers NEW and every RESUME names the same operation |
| PartnerHistory.BeginFollowsHistory | apps/api/src/modules/shared/postgres-partner-journal.ts:56-71 | after NEW, whatever is recorded: a later `begin` is CONFLICT exactly if its hash differs; otherwise RESUME of the same operation exactly if no receipt and no non-retryable failure is recorded, REPLAY of the first receipt, or the last non-retryable failure |
| PartnerHistory.OthersConflict | apps/api/src/modules/shared/postgres-partner-journal.ts:68 | the record of another writer answers every `begin` with CONFLICT for ever |
| PartnerHistory.StatusFollowsHistory | apps/api/src/modules/shared/postgres-partner-journal.ts:87-118 | the status of the operation is PENDING, or that of the last first receipt or failure recorded |
| PartnerHistory.TrailIsWritten | apps/api/src/modules/shared/postgres-partner-journal.ts:89-119 | in every run the audit rows are those of the first receipts and the failures, in order, each with its own result |
| PartnerHistory.FirstReceiptsAreAnnounced | apps/api/src/modules/shared/postgres-partner-journal.ts:94-99 | in every run the event of a tenant and key announces the first receipt of any of its scopes, and each such receipt is announced |
| PartnerHistory.FirstReceiptWins | apps/api/src/modules/shared/postgres-partner-journal.ts:79-86 | after the first commit every other one changes nothing and is answered with the first receipt or refused; exactly equal receipts are answered where the collation tells their names apart |
| PartnerHistory.BeginReplaysUntilFailure | apps/api/src/modules/shared/postgres-partner-journal.ts:66-118 | after the first commit `begin` replays the receipt exactly until a non-retryable failure is recorded, and from then on answers the last such failure |
| PartnerHistory.StatusAfterCommit | apps/api/src/modules/shared/postgres-partner-journal.ts:87-118 | after the first commit the operation is SUCCEEDED until a failure is recorded and then has the status of the last one, while the receipt stays exactly until a non-retryable one |
| StellarSubmitter.ExternalReferenceStellarSubmitter.Submit | apps/api/src/runtime/stellar/signer.ts:55-73 | for any provider behaviour: what reaches the ledger and which receipt or error the caller gets |
| StellarSubmitter.ExternalReferenceStellarSubmitter.LookUp | apps/api/src/runtime/stellar/signer.ts:49-53 | the ledger's receipt if valid, null if there is none, an error otherwise |
| StellarSubmitter.SubmitsExactly | apps/api/src/runtime/stellar/signer.ts:55-64 | an effect needs a valid TESTNET identity that a working lookup does not find and the expected public key, and is then added behind what is there |
| StellarSubmitter.ConfigurationIff | apps/api/src/runtime/stellar/signer.ts:60-63 | CONFIGURATION exactly for a missing or another public key, once a valid identity is not found |
| StellarSubmitter.PostedIsAnswered | apps/api/src/runtime/stellar/signer.ts:57-58 | an identity on the ledger is answered with its first receipt, whatever the key |
| StellarSubmitter.MalformedIdentities | apps/api/src/runtime/stellar/signer.ts:116-120 | another network, a malformed hash or submission id is a PROTOCOL_MISMATCH without effect |
| StellarSubmitter.ReceiptsAreWellFormed | apps/api/src/runtime/stellar/signer.ts:122-130 | every receipt answered has a lower-case hash of 64 digits and a safe positive ledger sequence, and such an answer of the provider is passed on |
| StellarSubmitter.AmbiguousWords | apps/api/src/runtime/stellar/signer.ts:132-134 | each of the five transport words makes a message ambiguous wherever it stands |
| StellarSubmitter.LostResponses | apps/api/src/runtime/stellar/signer.ts:132-134 | so does a response lost on the same line |
| StellarSubmitter.AtMostOneEffect | apps/api/src/runtime/stellar/signer.ts:55-73 | when effects happen before the follow-up lookup or never, one identity has at most one effect in every run |
| StellarSubmitter.AnswersBoundEffects | apps/api/src/runtime/stellar/signer.ts:55-73 | in every run, late effects included, an identity has at most one effect per answer in doubt before the first settled one, and one for that |
| StellarSubmitter.AtMostOnceIffNotRetriedInDoubt | apps/api/src/runtime/stellar/signer.ts:66-72 | every run that sounds like this one has at most one effect, exactly when no call, past configuration errors, follows a first answer in doubt |
| StellarSubmitter.EverySuccessIsTheSame | apps/api/src/runtime/stellar/signer.ts:57-65 | after one success every later call of the identity returns the same receipt and submits nothing, unless its lookup fails |
| StellarSubmitter.DoubtMeansNothingFound | apps/api/src/runtime/stellar/signer.ts:66-72 | AMBIGUOUS or REJECTED exactly when the submission was made without a valid answer and the follow-up lookup found nothing; AMBIGUOUS exactly for a transport-like error of others, and the ledger as before |
| StellarSubmitter.LostAnswersAreRecovered | apps/api/src/runtime/stellar/signer.ts:66-68 | an effect whose answer is lost or garbled is answered with the ledger's receipt |
| StellarSubmitter.InvalidReceiptsBlock | apps/api/src/runtime/stellar/signer.ts:122-130 | an invalid receipt on the ledger makes every later call of the identity a PROTOCOL_MISMATCH without a second effect |
| StellarSubmitter.DelayedEffectsDuplicate | apps/api/src/runtime/stellar/signer.ts:66-71 | a retry before a late effect lands leaves two effects |
| OutboxLeases.Outbox.SelectCandidates | apps/api/src/reliability/outbox.ts:17-26 | as many eligible unlocked events of the tenant as fit, the oldest ones, whatever the scan order |
| OutboxLeases.Outbox.ClaimOutboxBatch | apps/api/src/reliability/outbox.ts:13-36 | takes such a batch and leases exactly its rows |
| OutboxLeases.BatchesAreDue | apps/api/src/reliability/outbox.ts:19-23 | every event of a batch is pending or processing, of the tenant, due, and unleased or expired |
| OutboxLeases.DueEventsAreTaken | apps/api/src/reliability/outbox.ts:19-26 | such an event is left out only of a full batch of events at least as old |
| OutboxLeases.FinishedEventsStay | apps/api/src/reliability/outbox.ts:20 | in any interleaving a published or dead event is never leased again unless it is amended |
| OutboxLeases.LeasesRunFromOpening | apps/api/src/reliability/outbox.ts:28-34 | whatever happens in between, a commit leases exactly the events selected, from the start of the transaction for the length asked, to its worker, one attempt further |
| OutboxLeases.LeasesExclude | apps/api/src/reliability/outbox.ts:15-34 | in any interleaving: of two leases of an event the earlier has expired before the later starts, no two open transactions hold an event, attempt counts are numbers of leases, lease columns are those of the last lease |
| OutboxLeases.UnexpiredLeasesAreSkipped | apps/api/src/reliability/outbox.ts:20-23 | no batch contains an event whose lease is unexpired at the start of its transaction |
| NumberText.NumberRoundTrip | apps/api/src/reliability/canonical-json.ts:5-8 | every finite number is read back from its text, in all four layouts of the standard |
| NumberText.PrintIsInjective | apps/api/src/reliability/canonical-json.ts:7 | different numbers print differently |
| NumberText.PowersOfTen | apps/api/src/reliability/canonical-json.ts:7 | ten to the n is written out from the millionth to the twentieth power and with an exponent beyond |
| NumberText.WholeNumbers | apps/api/src/reliability/canonical-json.ts:7 | whole numbers of at most 21 digits print without point and exponent, and zero without a sign |
| NumberText.PointsInside | apps/api/src/reliability/canonical-json.ts:7 | a number with up to 21 whole digits has its point between them and the others |
| JsonText.RoundTrip | apps/api/src/reliability/canonical-json.ts:3-17 | parsing a printed value gives it back and stops where its text ends |
| JsonText.StringRoundTrip | apps/api/src/reliability/canonical-json.ts:4 | every string of UTF-16 code units, lone surrogates included, is read back from its literal |
| JsonText.LiteralOfUnit | apps/api/src/reliability/canonical-json.ts:4 | seven code units have two-character escapes; every other one that is no control and no surrogate stands for itself |
| JsonText.LiteralOfControl | apps/api/src/reliability/canonical-json.ts:4 | other controls and lone surrogates are escaped in lower-case hexadecimal |
| JsonText.PairsAreKept | apps/api/src/reliability/canonical-json.ts:4 | a surrogate pair stands for itself |
| JsonText.EscapesJoin | apps/api/src/reliability/canonical-json.ts:4 | literals are written piece by piece unless a surrogate pair is torn apart |
| CanonicalJson.EncodesTheNormalForm | apps/api/src/reliability/canonical-json.ts:3-17 | `canonicalJson` fails exactly on unencodable values and otherwise prints the value with sorted members and without undefined ones |
| CanonicalJson.DecodesToNormalForm | apps/api/src/reliability/canonical-json.ts:3-17 | a parser recovers that normal form |
| CanonicalJson.CanonicalTextIsInjective | apps/api/src/reliability/canonical-json.ts:19-21 | equal texts come from values equal up to member order and dropped undefined members, whatever the comparator |
| CanonicalJson.SortAscendsStably | apps/api/src/reliability/canonical-json.ts:13 | members ascend in the collation, and those that tie stay as inserted |
| CanonicalJson.SmallTexts | apps/api/src/reliability/canonical-json.ts:3-14 | the texts of the constants and of empty arrays and objects |
| CanonicalJson.DocumentedOrder | apps/api/test/reliability.test.ts:57-60 | `{ b: 2, a: 1 }` is `{"a":1,"b":2}` whenever the collation puts a before b |
| CanonicalOrder.CanonicalTextIffSame | apps/api/src/reliability/canonical-json.ts:10-15 | where no member names tie, equal texts and equal values are the same thing |
| CanonicalOrder.OrderIndependentIffTieFree | apps/api/src/reliability/canonical-json.ts:11-13 | every permutation of an object's members gives the same text exactly when no two of its names tie |
| CanonicalOrder.TiesExposeOrder | apps/api/src/reliability/canonical-json.ts:13 | two tying members swapped give different texts |
| Redaction.RedactionIsIdempotent | apps/api/src/reliability/redaction.ts:3-14 | no sensitive key keeps another value than the marker, and redacting again changes nothing |
| Redaction.SensitiveIff | apps/api/src/reliability/redaction.ts:1-6 | a key is sensitive exactly if one of the ten words occurs in it, in any case |
| Redaction.RedactsMemberwise | apps/api/src/reliability/redaction.ts:4-12 | keys keep their order, sensitive ones hold "[REDACTED]", nested objects are redacted, and plain values stay |
| Redaction.DocumentedRedaction | apps/api/test/reliability.test.ts:92-107 | the documented nested example |
| Redaction.FixedPoints | apps/api/src/reliability/redaction.ts:3-14 | redaction leaves exactly the redacted trees without directly nested arrays alone |
| Redaction.NonInterference | apps/api/src/reliability/redaction.ts:5-13 | trees that differ only beneath sensitive keys give the same output |
| Redaction.OutputDeterminesTheRest | apps/api/src/reliability/redaction.ts:5-13 | without directly nested arrays, equal outputs come from trees that differ only beneath sensitive keys |
| Redaction.SameOutputIff | apps/api/src/reliability/redaction.ts:3-14 | equal outputs come exactly from trees that agree except beneath sensitive keys, once arrays in arrays are read as records |
| Redaction.IndicesAreNotSensitive | apps/api/src/reliability/redaction.ts:1-9 | array indices taken for keys are never redacted |
| Redaction.NestedArraysBecomeRecords | apps/api/src/reliability/redaction.ts:8-10 | an array inside an array and the record of its indices give the same output |
| MoneyText.FullFormRoundTrip | apps/web/src/lib/jejak/money.ts:5-33 | the full form can be read back to sign and padded digits, for every accepted amount |
| MoneyText.FullFormsAgreeIff | apps/web/src/lib/jejak/money.ts:18-33 | two amounts of one asset and scale print alike exactly when signs and padded digits agree |
| MoneyText.CanonicalAmountsAreRecovered | apps/web/src/lib/jejak/money.ts:5-33 | an amount without leading zeros or negative zero is recovered from its full form |
| MoneyText.GroupsOfThree | apps/web/src/lib/jejak/money.ts:15 | from the right every fourth character is a dot, no other is, and none comes first |
| MoneyText.GroupsByThousand | apps/web/src/lib/jejak/money.ts:15 | up to three digits stand alone, and each further three follow a dot |
| MoneyText.FullFormLooks | apps/web/src/lib/jejak/money.ts:21-33 | minus sign, label, space, and a body with a comma exactly if the fraction is not zero, which then does not end in a zero |
| MoneyText.CompactFormRounds | apps/web/src/lib/jejak/money.ts:21-30 | from a thousand on the compact form shows the largest fitting unit and the nearest tenths of it, halves up; below it is the full form |
| MoneyText.CompactFormOverflowsIff | apps/web/src/lib/jejak/money.ts:26-28 | `formatMoney` shows a thousand of a unit that has a next one exactly from 999.95 of it on |
| MoneyText.ThousandThousand | apps/web/src/lib/jejak/money.ts:21-30 | 999950 whole units of IDR print as "Rp 1000K" |
| MoneyText.ZeroRupiah | apps/web/src/lib/jejak/money.test.ts:6 | zero IDR prints as "Rp 0" |
| MoneyText.RupiahWithCents | apps/web/src/lib/jejak/money.test.ts:7 | 12345 IDR at scale 2 print as "Rp 123,45" |
| MoneyText.MillionthsOfAToken | apps/web/src/lib/jejak/money.test.ts:8 | 1234567 USDC at scale 6 print as "USDC 1,234567" |
| MoneyText.TrailingZeros | apps/web/src/lib/jejak/money.test.ts:9 | 640000000 JUSD at scale 7 print as "JUSD 64" |
| MoneyText.BeyondSafeIntegers | apps/web/src/lib/jejak/money.test.ts:12-14 | a negative amount beyond safe integers, digit by digit |
| MoneyText.CompactBillions | apps/web/src/lib/jejak/money.test.ts:16-18 | one and a quarter billion print as "Rp 1.3B" in compact form |

## Left out

- The facility, servicing-waterfall and resolution-manager contracts appear as arbitrary callers of `transition` with
  their roles; `release_unused_first_loss` is a call that succeeds or fails.
- Storage lifetimes, contract upgrades, `initialize` after deployment, reason codes and the actors in events. A missing
  signature is a trap; a transaction's signers authorize every call inside it.
- Conditions under which the host's asset contract refuses a token call, beyond balance, authorization and overflow, are
  one flag of the transaction; a spender's allowance is among them.
- The ledger never runs backwards, and stored entries never expire.
- HappyFinalizer.CrashSafety: assumes that the projection never runs ahead of the chain, that Issuer edges are driven
  by the controller, and that nobody else writes the claim row.
- FinalizerPass.CandidatesAreTheRepaidRows: a claim has one projection; the table of positions is keyed by network as
  well, which the query does not filter on, so one network is assumed.
- The reconciliation expectation and submission rows of `#expectClose` are one pending mark.
- How the shortest decimal of a floating-point number is found; both zeros are one number. Sparse arrays, dates, getters
  and prototypes. An object's members are a sequence in insertion order.
- `localeCompare` is any ranking of strings; the tables of a locale are not modelled.
- SHA-256 is injective, so hashes are texts. Fresh identifiers are distinct.
- Expiry times of idempotency records are stored by the code and read by none of the modelled functions.
- Row-level security: a scope's tenant is the tenant of the transaction.
- Mutations.MutationCoordinator.Execute: concurrent calls of one scope are serialized by the unique index and are
  modelled one after the other; a mutator may write any domain rows but not the three reliability tables. The stored
  form of audit references and outbox payloads is the value given, and only the columns used here are modelled.
- Records of the partner journal share their table with mutations; the two are modelled with their own tables, with
  records of other writers as an event of the journal.
- PartnerHistory.RunsFromEmptyAreConsistent: assumes receipts and failures are recorded under the operation that `begin`
  answered. `recordAttempt` only appends a row and is left out. A stored body is recognised as what was written.
- StellarSubmitter.AtMostOneEffect: calls are sequential and a lookup that answers is accurate; a well-formed answer of
  the provider is the receipt of an effect that has happened. Raw errors of the provider are not told apart.
- OutboxLeases.LeasesExclude: nobody shortens a lease, and lease lengths are not negative. `retryDelayMilliseconds` is a
  formula over a random number.
- `addMoney`, `subtractMoney` and `moneyPercent` are one-line integer arithmetic.
