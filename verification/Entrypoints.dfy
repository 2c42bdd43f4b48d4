/** When each entrypoint succeeds, and what its callers can read afterwards. */
module Entrypoints {
  import opened Options
  import opened Common
  import opened Ledger
  import opened ContractRuns
  import A = AssetController

  /** Everything that is not named changes not at all. */
  predicate OnlyRegistry(w: World, v: World) {
    v.lifecycle == w.lifecycle && v.controller == w.controller && v.token == w.token && v.now == w.now
  }

  predicate OnlyLifecycle(w: World, v: World) {
    v.registry == w.registry && v.controller == w.controller && v.token == w.token && v.now == w.now
  }

  /** One claim changes, to a given record, and one event is published. */
  predicate ClaimBecomes(w: World, v: World, claim: Claim, event: ClaimEvent) {
    && v.lifecycle.claims == w.lifecycle.claims[event.claimKey := claim]
    && v.lifecycle.roles == w.lifecycle.roles && v.lifecycle.admin == w.lifecycle.admin
    && v.lifecycle.log == w.lifecycle.log + [event]
  }

  /** A claim moves to a state under the next version, and says so. */
  predicate ClaimMoves(w: World, v: World, k: Key, claim: Claim) {
    && k in w.lifecycle.claims && claim.stateVersion == w.lifecycle.claims[k].stateVersion + 1
    && ClaimBecomes(w, v, claim, Transitioned(k, w.lifecycle.claims[k].state, claim.state, claim.stateVersion))
  }

  lemma SetOracleExactly(w: World, i: Invocation)
    requires i.call.SetOracle?
    ensures Plan(w, i).Ok? <==> i.call.admin in i.signers && w.registry.admin == i.call.admin
    ensures Plan(w, i).Ok? ==>
              && OnlyRegistry(w, Step(w, i))
              && Step(w, i).registry == w.registry.(oracles := w.registry.oracles[i.call.oracle := i.call.enabled])
  {
  }

  /** Written once: a valid, unexpired attestation, signed by its own enabled oracle, under a fresh key. */
  lemma RegisterExactly(w: World, i: Invocation)
    requires i.call.RegisterAttestation?
    ensures var a := i.call.attestation;
            Plan(w, i).Ok? <==>
              && a.oracle == i.call.oracle && a.oracle in i.signers && Flag(w.registry.oracles, a.oracle)
              && a.sdsBps <= 10_000 && a.esvBaseUnits >= 0 && w.now < a.expiresAt
              && a.attestationKey !in w.registry.attestations
    ensures Plan(w, i).Ok? ==>
              var a := i.call.attestation;
              && OnlyRegistry(w, Step(w, i))
              && Step(w, i).registry == w.registry.(attestations := w.registry.attestations[a.attestationKey := a])
  {
  }

  lemma RevokeExactly(w: World, i: Invocation)
    requires i.call.RevokeAttestation?
    ensures Plan(w, i).Ok? <==>
              && i.call.actor in i.signers
              && (i.call.actor == w.registry.admin || Flag(w.registry.oracles, i.call.actor))
              && i.call.key in w.registry.attestations && i.call.key !in w.registry.revoked
    ensures Plan(w, i).Ok? ==>
              && OnlyRegistry(w, Step(w, i))
              && Step(w, i).registry == w.registry.(revoked := w.registry.revoked[i.call.key := i.call.reason])
  {
  }

  lemma SetRoleExactly(w: World, i: Invocation)
    requires i.call.SetRole?
    ensures Plan(w, i).Ok? <==> i.call.admin in i.signers && w.lifecycle.admin == i.call.admin
    ensures Plan(w, i).Ok? ==>
              && OnlyLifecycle(w, Step(w, i))
              && Step(w, i).lifecycle ==
                 w.lifecycle.(roles := w.lifecycle.roles[(i.call.role, i.call.actor) := i.call.enabled])
  {
  }

  /** An Originator creates a claim once, for positive amounts and an active attestation that names it. */
  lemma CreateExactly(w: World, i: Invocation)
    requires i.call.CreateClaim?
    ensures var t := i.call.terms;
            Plan(w, i).Ok? <==>
              && i.call.originator in i.signers && w.lifecycle.HasRole(Originator, i.call.originator)
              && t.sourceAmount > 0 && t.approvedPrincipal > 0 && t.claimKey !in w.lifecycle.claims
              && t.attestationKey in w.registry.attestations && t.attestationKey !in w.registry.revoked
              && w.now < w.registry.attestations[t.attestationKey].expiresAt
              && w.registry.attestations[t.attestationKey].claimKey == t.claimKey
    ensures Plan(w, i).Ok? ==>
              var k, v := i.call.terms.claimKey, Step(w, i);
              && k in v.lifecycle.claims && OnlyLifecycle(w, v) && ClaimBecomes(w, v, v.lifecycle.claims[k], Created(k))
              && v.lifecycle.claims[k].state.Eligible? && v.lifecycle.claims[k].stateVersion == 1
              && v.lifecycle.claims[k].evidenceHash.None? && !v.lifecycle.claims[k].hasPausedFrom
              && v.lifecycle.claims[k].controlExpiresAt == 0
  {
  }

  lemma ConfirmExactly(w: World, i: Invocation)
    requires i.call.ConfirmControl?
    ensures Plan(w, i).Ok? <==>
              && i.call.actor in i.signers
              && (w.lifecycle.HasRole(Originator, i.call.actor) || w.lifecycle.HasRole(Control, i.call.actor))
              && w.now < i.call.expiresAt && CanEnter(w.lifecycle, i.call.k)
              && w.lifecycle.claims[i.call.k].state.Eligible?
    ensures Plan(w, i).Ok? ==>
              var c := w.lifecycle.claims[i.call.k];
              && OnlyLifecycle(w, Step(w, i))
              && ClaimBecomes(w, Step(w, i),
                              c.(state := Controlled, stateVersion := c.stateVersion + 1,
                                 evidenceHash := Some(i.call.evidence), controlExpiresAt := i.call.expiresAt),
                              Confirmed(i.call.k))
  {
  }

  /** An edge of the graph, taken by the one role that may leave the state, from the state the caller expects. */
  lemma TransitionExactly(w: World, i: Invocation)
    requires i.call.Transition?
    ensures Plan(w, i).Ok? <==>
              && i.call.actor in i.signers && CanEnter(w.lifecycle, i.call.k)
              && w.lifecycle.claims[i.call.k].state == i.call.expected && Edge(i.call.expected, i.call.next)
              && w.lifecycle.HasRole(RoleLeaving(i.call.expected), i.call.actor)
              && (i.call.next.Issued? ==> w.now < w.lifecycle.claims[i.call.k].controlExpiresAt)
    ensures Plan(w, i).Ok? ==>
              var c := w.lifecycle.claims[i.call.k];
              && OnlyLifecycle(w, Step(w, i))
              && ClaimMoves(w, Step(w, i), i.call.k, c.(state := i.call.next, stateVersion := c.stateVersion + 1))
  {
    if i.call.k in w.lifecycle.claims {
      ValidTransitionIff(w.lifecycle, w.now, i.call.actor, w.lifecycle.claims[i.call.k], i.call.next);
    }
  }

  /** A Pauser can pause every live claim that is not paused, and nobody else can. */
  lemma PauseExactly(w: World, i: Invocation)
    requires i.call.Pause?
    ensures Plan(w, i).Ok? <==>
              && i.call.pauser in i.signers && w.lifecycle.HasRole(PauserRole, i.call.pauser)
              && CanEnter(w.lifecycle, i.call.k)
              && !w.lifecycle.claims[i.call.k].state.Closed? && !w.lifecycle.claims[i.call.k].state.ClosedWithLoss?
              && !w.lifecycle.claims[i.call.k].state.Paused?
    ensures Plan(w, i).Ok? ==>
              var c := w.lifecycle.claims[i.call.k];
              && OnlyLifecycle(w, Step(w, i))
              && ClaimMoves(w, Step(w, i), i.call.k,
                              c.(state := Paused, stateVersion := c.stateVersion + 1, pausedFrom := c.state,
                                 hasPausedFrom := true))
  {
  }

  /** The admin resumes a paused claim to where it was paused, or from Issued to Controlled. */
  lemma ResumeExactly(w: World, i: Invocation)
    requires i.call.Resume?
    ensures Plan(w, i).Ok? <==>
              && i.call.admin in i.signers && w.lifecycle.admin == i.call.admin && CanEnter(w.lifecycle, i.call.k)
              && w.lifecycle.claims[i.call.k].state.Paused? && w.lifecycle.claims[i.call.k].hasPausedFrom
              && (i.call.target == w.lifecycle.claims[i.call.k].pausedFrom
                  || (i.call.target.Controlled? && w.lifecycle.claims[i.call.k].pausedFrom.Issued?))
    ensures Plan(w, i).Ok? ==>
              var c := w.lifecycle.claims[i.call.k];
              && OnlyLifecycle(w, Step(w, i))
              && ClaimMoves(w, Step(w, i), i.call.k,
                              c.(state := i.call.target, stateVersion := c.stateVersion + 1, hasPausedFrom := false))
  {
  }

  // The asset controller.

  lemma SetPauserExactly(w: World, i: Invocation)
    requires i.call.SetPauser?
    ensures Plan(w, i).Ok? <==> i.call.admin in i.signers && w.controller.admin == i.call.admin
    ensures Plan(w, i).Ok? ==>
              Step(w, i) ==
              w.(controller := w.controller.(pausers := w.controller.pausers[i.call.pauser := i.call.enabled]))
  {
  }

  lemma SetGlobalPauseExactly(w: World, i: Invocation)
    requires i.call.SetGlobalPause?
    ensures Plan(w, i).Ok? <==> i.call.pauser in i.signers && Flag(w.controller.pausers, i.call.pauser)
    ensures Plan(w, i).Ok? ==> Step(w, i) == w.(controller := w.controller.(globalPause := i.call.paused))
  {
  }

  /** The Frozen store and the asset's own authorization always say the opposite of `enabled`. */
  predicate HolderBecomes(w: World, v: World, h: Address, enabled: bool) {
    && v.lifecycle == w.lifecycle && v.registry == w.registry && v.now == w.now
    && v.controller == w.controller.(frozen := w.controller.frozen[h := !enabled])
    && v.token.balances == w.token.balances
    && v.token.deauthorized == if enabled then w.token.deauthorized - {h} else w.token.deauthorized + {h}
  }

  lemma AuthorizeHolderExactly(w: World, i: Invocation)
    requires i.call.AuthorizeHolder?
    ensures Plan(w, i).Ok? <==>
              && i.call.operator in i.signers && w.controller.operator == i.call.operator
              && !w.controller.globalPause && i.host
    ensures Plan(w, i).Ok? ==> HolderBecomes(w, Step(w, i), i.call.holder, i.call.enabled)
  {
  }

  lemma FreezeExactly(w: World, i: Invocation)
    requires i.call.Freeze?
    ensures Plan(w, i).Ok? <==>
              && i.call.actor in i.signers && i.host
              && (i.call.actor == w.controller.operator || Flag(w.controller.pausers, i.call.actor))
    ensures Plan(w, i).Ok? ==> HolderBecomes(w, Step(w, i), i.call.holder, false)
  {
  }

  /** The operator issues a Controlled claim with unexpired control and an active attestation, once until it is
      redeemed, within its principal, to a holder who is not frozen, unless the controller is paused. */
  lemma IssueExactly(w: World, i: Invocation)
    requires i.call.Issue?
    ensures var k, h, n := i.call.k, i.call.holder, i.call.amount;
            Plan(w, i).Ok? <==>
              && i.call.operator in i.signers && w.controller.operator == i.call.operator && !w.controller.globalPause
              && CanEnter(w.lifecycle, k) && w.lifecycle.claims[k].state.Controlled?
              && w.now < w.lifecycle.claims[k].controlExpiresAt
              && w.registry.Active(w.lifecycle.claims[k].attestationKey, w.now)
              && w.controller.Outstanding(k) == 0 && 0 < n <= w.lifecycle.claims[k].approvedPrincipal
              && !Flag(w.controller.frozen, h) && w.lifecycle.HasRole(Issuer, i.call.operator)
              && i.host && h !in w.token.deauthorized && w.token.Balance(h) + n <= I128_MAX
  {
  }

  lemma IssueGives(w: World, i: Invocation)
    requires i.call.Issue? && Plan(w, i).Ok?
    ensures var v, k, h, n := Step(w, i), i.call.k, i.call.holder, i.call.amount;
            && k in w.lifecycle.claims
            && ClaimMoves(w, v, k, w.lifecycle.claims[k].(state := ClaimState.Issued,
                            stateVersion := w.lifecycle.claims[k].stateVersion + 1))
            && v.controller == w.controller.(issued := w.controller.issued[k := n],
                                             holder := w.controller.holder[k := h],
                                             log := w.controller.log + [AssetIssued(k, h, n)])
            && v.token == w.token.(balances := w.token.balances[h := w.token.Balance(h) + n])
            && v.registry == w.registry && v.now == w.now
  {
    IssueExactly(w, i);
  }

  /** Tokens of a claim leave the holder and the issuance alike. */
  ghost predicate Removes(w: World, v: World, k: Key, h: Address, amount: int) {
    && v.controller.Outstanding(k) == w.controller.Outstanding(k) - amount
    && v.controller.issued.Keys == w.controller.issued.Keys + {k}
    && (forall j :: j != k ==> v.controller.Outstanding(j) == w.controller.Outstanding(j))
    && v.controller.holder == w.controller.holder && v.controller.frozen == w.controller.frozen
    && v.token.Balance(h) == w.token.Balance(h) - amount
    && (forall a :: a != h ==> v.token.Balance(a) == w.token.Balance(a))
    && v.registry == w.registry && v.now == w.now
  }

  /** Operator and holder together redeem up to what is outstanding; the last token of a Repaid claim takes it to
      Redeemed, and if that fails nothing happens at all. */
  lemma RedeemExactly(w: World, i: Invocation)
    requires i.call.Redeem?
    ensures var k, h, n := i.call.k, i.call.holder, i.call.amount;
            Plan(w, i).Ok? <==>
              && i.call.operator in i.signers && w.controller.operator == i.call.operator && h in i.signers
              && 0 < n <= w.controller.Outstanding(k) && Lookup(w.controller.holder, k) == Some(h)
              && i.host && h !in w.token.deauthorized && n <= w.token.Balance(h)
              && k in w.lifecycle.claims
              && (n == w.controller.Outstanding(k) && w.lifecycle.claims[k].state.Repaid? ==>
                    w.lifecycle.HasRole(Issuer, i.call.operator) && CanEnter(w.lifecycle, k))
  {
  }

  lemma RedeemGives(w: World, i: Invocation)
    requires i.call.Redeem? && Plan(w, i).Ok?
    ensures var v, k := Step(w, i), i.call.k;
            && k in w.lifecycle.claims && Removes(w, v, k, i.call.holder, i.call.amount)
            && v.controller.log == w.controller.log + [AssetRedeemed(k, i.call.holder, i.call.amount)]
            && if i.call.amount == w.controller.Outstanding(k) && w.lifecycle.claims[k].state.Repaid?
               then ClaimMoves(w, v, k, w.lifecycle.claims[k].(state := Redeemed,
                                 stateVersion := w.lifecycle.claims[k].stateVersion + 1))
               else v.lifecycle == w.lifecycle
  {
    RedeemExactly(w, i);
  }

  lemma ClawbackExactly(w: World, i: Invocation)
    requires i.call.Clawback?
    ensures Plan(w, i).Ok? <==>
              && i.call.operator in i.signers && w.controller.operator == i.call.operator
              && i.host && 0 < i.call.amount <= w.token.Balance(i.call.holder)
    ensures Plan(w, i).Ok? ==>
              var v, h := Step(w, i), i.call.holder;
              && v.lifecycle == w.lifecycle
              && v.controller == w.controller.(log := w.controller.log + [AssetClawedBack(h, i.call.amount)])
              && v.token.Balance(h) == w.token.Balance(h) - i.call.amount
              && forall a :: a != h ==> v.token.Balance(a) == w.token.Balance(a)
  {
  }

  /** The operator alone can take a claim's tokens back from its recorded holder, frozen or not. */
  lemma ClawbackClaimExactly(w: World, i: Invocation)
    requires i.call.ClawbackClaim?
    ensures var k, h, n := i.call.k, i.call.holder, i.call.amount;
            Plan(w, i).Ok? <==>
              && i.call.operator in i.signers && w.controller.operator == i.call.operator && i.host
              && 0 < n <= w.controller.Outstanding(k) && Lookup(w.controller.holder, k) == Some(h)
              && n <= w.token.Balance(h)
  {
  }

  lemma ClawbackClaimGives(w: World, i: Invocation)
    requires i.call.ClawbackClaim? && Plan(w, i).Ok?
    ensures var v, k, h, n := Step(w, i), i.call.k, i.call.holder, i.call.amount;
            && Removes(w, v, k, h, n) && v.lifecycle == w.lifecycle
            && v.controller.log == w.controller.log +
                                   [ClaimAssetClawedBack(k, h, n, w.controller.Outstanding(k) - n)]
  {
    ClawbackClaimExactly(w, i);
  }

  lemma CloseExactly(w: World, i: Invocation)
    requires i.call.CloseClaim?
    ensures Plan(w, i).Ok? <==>
              && i.call.operator in i.signers && w.controller.operator == i.call.operator
              && w.controller.Outstanding(i.call.k) == 0 && CanEnter(w.lifecycle, i.call.k)
              && w.lifecycle.claims[i.call.k].state.Redeemed? && w.lifecycle.HasRole(Issuer, i.call.operator)
    ensures Plan(w, i).Ok? ==>
              var c := w.lifecycle.claims[i.call.k];
              && OnlyLifecycle(w, Step(w, i))
              && ClaimMoves(w, Step(w, i), i.call.k, c.(state := Closed, stateVersion := c.stateVersion + 1))
  {
  }

  // What the error codes say.

  /** Who may not; what is there already; what is missing; what has run out. */
  lemma RegistryErrors(w: World, i: Invocation)
    requires (i.call.RegisterAttestation? || i.call.RevokeAttestation?) && Plan(w, i).Err?
    ensures var r, code := w.registry, Plan(w, i).code;
            if i.call.RevokeAttestation? then
              || (code == Forbidden && i.call.actor != r.admin && !Flag(r.oracles, i.call.actor))
              || (code == AttestationMissing && i.call.key !in r.attestations)
              || (code == ContractError.Replay && i.call.key in r.revoked)
            else
              || (code == Forbidden && !Flag(r.oracles, i.call.oracle))
              || (code == ValidationFailed && (i.call.attestation.oracle != i.call.oracle
                    || i.call.attestation.sdsBps > 10_000 || i.call.attestation.esvBaseUnits < 0))
              || (code == AttestationExpired && i.call.attestation.expiresAt <= w.now)
              || (code == ContractError.Replay && i.call.attestation.attestationKey in r.attestations)
  {
  }

  lemma CreateErrors(w: World, i: Invocation)
    requires i.call.CreateClaim? && Plan(w, i).Err?
    ensures var t, code := i.call.terms, Plan(w, i).code;
            || (code == Forbidden && !w.lifecycle.HasRole(Originator, i.call.originator))
            || (code == AmountNotPositive && (t.sourceAmount <= 0 || t.approvedPrincipal <= 0))
            || (code == ClaimAlreadyEncumbered && t.claimKey in w.lifecycle.claims)
            || (code == AttestationExpired && !w.registry.Active(t.attestationKey, w.now))
            || (code == ValidationFailed && w.registry.Active(t.attestationKey, w.now)
                && w.registry.attestations[t.attestationKey].claimKey != t.claimKey)
  {
  }

  /** Transitions, pauses and resumptions: the claim is missing, terminal, elsewhere than expected, or out of
      versions, or the edge is not for this caller. */
  lemma TransitionErrors(w: World, i: Invocation)
    requires i.call.Transition? && Plan(w, i).Err?
    ensures var l, k, code := w.lifecycle, i.call.k, Plan(w, i).code;
            || (code == NotFound && k !in l.claims)
            || (k in l.claims && code == TerminalState
                && (l.claims[k].state.Closed? || l.claims[k].state.ClosedWithLoss?))
            || (k in l.claims && code == VersionConflict && l.claims[k].state != i.call.expected)
            || (k in l.claims && code == InvalidStateTransition
                && !(&& Edge(i.call.expected, i.call.next) && l.HasRole(RoleLeaving(i.call.expected), i.call.actor)
                     && (i.call.next.Issued? ==> w.now < l.claims[k].controlExpiresAt)))
            || (k in l.claims && code == ArithmeticOverflow && l.claims[k].stateVersion == 0xFFFF_FFFF)
  {
    if i.call.k in w.lifecycle.claims {
      ValidTransitionIff(w.lifecycle, w.now, i.call.actor, w.lifecycle.claims[i.call.k], i.call.next);
    }
  }

  lemma PauseErrors(w: World, i: Invocation)
    requires (i.call.Pause? || i.call.Resume?) && Plan(w, i).Err?
    ensures var l, k, code := w.lifecycle, i.call.k, Plan(w, i).code;
            || (code == Forbidden && (i.call.Pause? ==> !l.HasRole(PauserRole, i.call.pauser))
                && (i.call.Resume? ==> i.call.admin != l.admin))
            || (code == NotFound && k !in l.claims)
            || (i.call.Pause? && k in l.claims && code == TerminalState
                && (l.claims[k].state.Closed? || l.claims[k].state.ClosedWithLoss?))
            || (i.call.Pause? && k in l.claims && code == ContractError.Replay && l.claims[k].state.Paused?)
            || (i.call.Resume? && k in l.claims && code == InvalidStateTransition)
  {
  }

  lemma ConfirmErrors(w: World, i: Invocation)
    requires i.call.ConfirmControl? && Plan(w, i).Err?
    ensures var l, k, code := w.lifecycle, i.call.k, Plan(w, i).code;
            || (code == Forbidden && !l.HasRole(Originator, i.call.actor) && !l.HasRole(Control, i.call.actor))
            || (code == ValidationFailed && i.call.expiresAt <= w.now)
            || (code == NotFound && k !in l.claims)
            || (k in l.claims && code == InvalidStateTransition && !l.claims[k].state.Eligible?)
            || (k in l.claims && code == ArithmeticOverflow && l.claims[k].stateVersion == 0xFFFF_FFFF)
  {
  }

  /** Why an issue is refused. */
  lemma IssueErrors(w: World, i: Invocation)
    requires i.call.Issue? && Plan(w, i).Err?
    ensures var c, k, code := w.controller, i.call.k, Plan(w, i).code;
            || (code == Forbidden && i.call.operator != c.operator)
            || (code == CircuitBreakerActive && c.globalPause)
            || (code == AmountNotPositive && i.call.amount <= 0)
            || (code == ContractError.Replay && c.Outstanding(k) != 0)
            || (code == HolderNotAuthorized && Flag(c.frozen, i.call.holder))
            || (k in w.lifecycle.claims && code == ControlNotVerified
                && (!w.lifecycle.claims[k].state.Controlled? || w.lifecycle.claims[k].controlExpiresAt <= w.now))
            || (k in w.lifecycle.claims && code == AttestationExpired
                && !w.registry.Active(w.lifecycle.claims[k].attestationKey, w.now))
            || (k in w.lifecycle.claims && code == ValidationFailed
                && i.call.amount > w.lifecycle.claims[k].approvedPrincipal)
  {
  }

  /** Why a redemption, a claim clawback or a close is refused. */
  lemma RemovalErrors(w: World, i: Invocation)
    requires (i.call.Redeem? || i.call.ClawbackClaim? || i.call.CloseClaim?) && Plan(w, i).Err?
    ensures var c, code := w.controller, Plan(w, i).code;
            || (code == Forbidden && i.call.operator != c.operator)
            || (!i.call.CloseClaim? && code == AmountNotPositive && i.call.amount <= 0)
            || (!i.call.CloseClaim? && code == ValidationFailed
                && (i.call.amount > c.Outstanding(i.call.k) || Lookup(c.holder, i.call.k) != Some(i.call.holder)))
            || (i.call.CloseClaim? && code == ValidationFailed && c.Outstanding(i.call.k) != 0)
  {
  }
}
