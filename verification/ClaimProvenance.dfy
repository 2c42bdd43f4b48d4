/** Where claims come from, what about them never changes, and what happens to dead attestations. */
module ClaimProvenance {
  import opened Common
  import opened Ledger
  import opened ContractRuns
  import opened ClaimHistory
  import A = AssetController

  predicate SameTerms(c: Claim, d: Claim) {
    && c.claimKey == d.claimKey && c.sellerSubjectHash == d.sellerSubjectHash && c.facilityId == d.facilityId
    && c.sourceAmount == d.sourceAmount && c.sourceCurrencyHash == d.sourceCurrencyHash
    && c.approvedPrincipal == d.approvedPrincipal && c.attestationKey == d.attestationKey
  }

  /** What any continuation of a run must respect. */
  predicate Continues(w: World, v: World) {
    && w.now <= v.now
    && (forall a <- w.registry.attestations ::
          a in v.registry.attestations && v.registry.attestations[a] == w.registry.attestations[a])
    && (forall a <- w.registry.revoked :: a in v.registry.revoked)
    && (forall k <- w.lifecycle.claims ::
          && k in v.lifecycle.claims && SameTerms(w.lifecycle.claims[k], v.lifecycle.claims[k])
          && (w.lifecycle.claims[k].state.Terminal() ==> v.lifecycle.claims[k] == w.lifecycle.claims[k]))
    && w.lifecycle.log <= v.lifecycle.log && w.controller.log <= v.controller.log
  }

  lemma ClaimContinues(w: World, m: Move, k: Key)
    requires Legal(w, m) && k in w.lifecycle.claims
    ensures var v := Apply(w, m);
            && k in v.lifecycle.claims && SameTerms(w.lifecycle.claims[k], v.lifecycle.claims[k])
            && (w.lifecycle.claims[k].state.Terminal() ==> v.lifecycle.claims[k] == w.lifecycle.claims[k])
  {
    if m.Advance? && m.k == k { EdgesRaiseRankByOne(w.lifecycle.claims[k].state, m.next); }
  }

  lemma LogsContinue(w: World, m: Move)
    ensures w.lifecycle.log <= Apply(w, m).lifecycle.log && w.controller.log <= Apply(w, m).controller.log
  {
  }

  lemma ContinuesStep(w: World, m: Move)
    requires Legal(w, m)
    ensures Continues(w, Apply(w, m))
  {
    LogsContinue(w, m);
    forall k | k in w.lifecycle.claims
      ensures var v := Apply(w, m);
              && k in v.lifecycle.claims && SameTerms(w.lifecycle.claims[k], v.lifecycle.claims[k])
              && (w.lifecycle.claims[k].state.Terminal() ==> v.lifecycle.claims[k] == w.lifecycle.claims[k])
    {
      ClaimContinues(w, m, k);
    }
  }

  /** In every continuation: attestations and revocations are write-once, claims keep their identity and
      principal, terminal claims never change, time and both logs only grow. */
  lemma {:induction false} RunsContinue(w: World, calls: seq<Invocation>)
    ensures Continues(w, Run(w, calls))
  {
    if calls != [] {
      var before, last := Run(w, calls[..|calls| - 1]), calls[|calls| - 1];
      RunsContinue(w, calls[..|calls| - 1]);
      LastStep(w, calls);
      if Plan(before, last).Ok? { ContinuesStep(before, Plan(before, last).value); }
    }
  }

  /** Every stored claim refers to a registered attestation that names it. */
  predicate Provenance(w: World) {
    forall k <- w.lifecycle.claims ::
      var c := w.lifecycle.claims[k];
      && c.claimKey == k
      && c.attestationKey in w.registry.attestations && w.registry.attestations[c.attestationKey].claimKey == k
      && c.approvedPrincipal > 0
  }

  lemma ProvenanceStep(w: World, m: Move)
    requires Legal(w, m) && Provenance(w)
    ensures Provenance(Apply(w, m))
  {
    var v := Apply(w, m);
    ContinuesStep(w, m);
    forall k | k in v.lifecycle.claims
      ensures var c := v.lifecycle.claims[k];
              && c.claimKey == k && c.approvedPrincipal > 0 && c.attestationKey in v.registry.attestations
              && v.registry.attestations[c.attestationKey].claimKey == k
    {
      if k in w.lifecycle.claims { assert SameTerms(w.lifecycle.claims[k], v.lifecycle.claims[k]); }
    }
  }

  lemma {:induction false} ClaimsKeepTheirAttestation(w: World, calls: seq<Invocation>)
    requires Genesis(w)
    ensures Provenance(Run(w, calls))
  {
    if calls != [] {
      var before, last := Run(w, calls[..|calls| - 1]), calls[|calls| - 1];
      ClaimsKeepTheirAttestation(w, calls[..|calls| - 1]);
      LastStep(w, calls);
      if Plan(before, last).Ok? { ProvenanceStep(before, Plan(before, last).value); }
    }
  }

  /** No attestation ever backs two claims. */
  lemma AttestationsAreNeverShared(w: World, calls: seq<Invocation>, j: Key, k: Key)
    requires Genesis(w)
    requires var claims := Run(w, calls).lifecycle.claims;
             j in claims && k in claims && claims[j].attestationKey == claims[k].attestationKey
    ensures j == k
  {
    ClaimsKeepTheirAttestation(w, calls);
  }

  /** Paused holds exactly when an origin is remembered, and the origin is a live state. */
  lemma PausesRememberALiveOrigin(w: World, calls: seq<Invocation>, k: Key)
    requires Genesis(w) && k in Run(w, calls).lifecycle.claims
    ensures PauseWellFormed(Run(w, calls).lifecycle.claims[k])
  {
    StepAccounting(w, calls, k);
  }

  /** Once a registered attestation is revoked or expired it never becomes active again, and no claim bound
      to it is ever created or issued. */
  lemma DeadAttestationsStayDead(w: World, key: Key, calls: seq<Invocation>, i: Invocation)
    requires key in w.registry.attestations && !w.registry.Active(key, w.now)
    ensures var v := Run(w, calls); !v.registry.Active(key, v.now)
    ensures var v := Run(w, calls);
            i.call.Issue? && i.call.k in v.lifecycle.claims && v.lifecycle.claims[i.call.k].attestationKey == key
            ==> !Plan(v, i).Ok?
    ensures i.call.CreateClaim? && i.call.terms.attestationKey == key ==> !Plan(Run(w, calls), i).Ok?
  {
    var v := Run(w, calls);
    RunsContinue(w, calls);
    assert !v.registry.Active(key, v.now);
    if Plan(v, i).Ok? && (i.call.Issue? || i.call.CreateClaim?) { MovesNeedActiveAttestations(v, i); }
  }

  lemma MovesNeedActiveAttestations(w: World, i: Invocation)
    requires (i.call.Issue? || i.call.CreateClaim?) && Plan(w, i).Ok?
    ensures i.call.Issue? ==>
              && i.call.k in w.lifecycle.claims
              && w.registry.Active(w.lifecycle.claims[i.call.k].attestationKey, w.now)
    ensures i.call.CreateClaim? ==> w.registry.Active(i.call.terms.attestationKey, w.now)
  {
    PlannedMovesAreLegal(w, i);
  }

  /** When `issue`'s own checks and the mint pass, the nested Controlled to Issued transition can only fail
      for the Issuer role or the version counter, and then everything written before it is undone. */
  lemma IssueGuardsMatchTransition(w: World, i: Invocation)
    requires i.call.Issue?
    requires A.IssueGuards(w, i.signers, i.host, i.call.operator, i.call.k, i.call.holder, i.call.amount) == Pass
    ensures Plan(w, i).Ok? <==>
            w.lifecycle.HasRole(Issuer, i.call.operator) && w.lifecycle.claims[i.call.k].stateVersion < U32_MAX
    ensures !Plan(w, i).Ok? ==> Plan(w, i) == Trap && Step(w, i) == w
  {
  }
}
