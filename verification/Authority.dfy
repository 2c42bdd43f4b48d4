/** Who must have signed for what changes, what the circuit breaker holds back, and what a creation promises. */
module Authority {
  import opened Options
  import opened Common
  import opened Ledger
  import opened ContractRuns
  import opened ClaimHistory
  import opened ClaimProvenance
  import opened Issuance
  import opened Entrypoints

  /** Someone who signed holds a role. */
  predicate SignedByRole(w: World, i: Invocation, role: Role) {
    exists a <- i.signers :: w.lifecycle.HasRole(role, a)
  }

  predicate SignedByPauser(w: World, i: Invocation) {
    exists a <- i.signers :: Flag(w.controller.pausers, a)
  }

  // Which stores a call can touch.

  predicate RegistryCall(call: Call) {
    call.SetOracle? || call.RegisterAttestation? || call.RevokeAttestation?
  }

  predicate LifecycleCall(call: Call) {
    call.SetRole? || call.CreateClaim? || call.ConfirmControl? || call.Transition? || call.Pause? || call.Resume?
  }

  predicate SwitchCall(call: Call) {
    call.SetPauser? || call.SetGlobalPause? || call.AuthorizeHolder? || call.Freeze?
  }

  predicate TokenCall(call: Call) {
    call.Clawback? || call.Transfer? || call.BurnHeld? || call.Tick?
  }

  lemma LifecycleCallsStayThere(w: World, i: Invocation)
    requires LifecycleCall(i.call)
    ensures OnlyLifecycle(w, Step(w, i)) && Step(w, i).lifecycle.admin == w.lifecycle.admin
  {
    if Plan(w, i).Ok? {
      match i.call
      case SetRole(_, _, _, _) => SetRoleExactly(w, i);
      case CreateClaim(_, _) => CreateExactly(w, i);
      case ConfirmControl(_, _, _, _) => ConfirmExactly(w, i);
      case Transition(_, _, _, _) => TransitionExactly(w, i);
      case Pause(_, _) => PauseExactly(w, i);
      case Resume(_, _, _) => ResumeExactly(w, i);
    }
  }

  lemma RegistryCallsStayThere(w: World, i: Invocation)
    requires RegistryCall(i.call)
    ensures OnlyRegistry(w, Step(w, i))
  {
  }

  lemma SwitchesStayThere(w: World, i: Invocation)
    requires SwitchCall(i.call)
    ensures var v := Step(w, i);
            && v.registry == w.registry && v.lifecycle == w.lifecycle && v.token.balances == w.token.balances
            && v.controller.issued == w.controller.issued && v.controller.holder == w.controller.holder
            && v.controller.admin == w.controller.admin && v.controller.operator == w.controller.operator
  {
  }

  lemma TokenCallsStayThere(w: World, i: Invocation)
    requires TokenCall(i.call)
    ensures var v := Step(w, i);
            && v.registry == w.registry && v.lifecycle == w.lifecycle && v.token.deauthorized == w.token.deauthorized
            && v.controller == w.controller.(log := v.controller.log)
  {
  }

  lemma ClaimTokenCallsStayThere(w: World, i: Invocation)
    requires i.call.Issue? || i.call.Redeem? || i.call.ClawbackClaim? || i.call.CloseClaim?
    ensures var v := Step(w, i);
            && v.registry == w.registry && v.token.deauthorized == w.token.deauthorized
            && v.lifecycle.roles == w.lifecycle.roles && v.lifecycle.admin == w.lifecycle.admin
            && v.controller == w.controller.(issued := v.controller.issued, holder := v.controller.holder,
                                             log := v.controller.log)
  {
    if Plan(w, i).Ok? {
      match i.call
      case Issue(_, _, _, _) => IssueGives(w, i);
      case Redeem(_, _, _, _) => RedeemLeavesSwitches(w, i);
      case ClawbackClaim(_, _, _, _) => ClawbackLeavesSwitches(w, i);
      case CloseClaim(_, _) => CloseExactly(w, i);
    }
  }

  lemma RedeemLeavesSwitches(w: World, i: Invocation)
    requires i.call.Redeem?
    ensures var v := Step(w, i);
            && v.registry == w.registry && v.token.deauthorized == w.token.deauthorized
            && v.lifecycle.roles == w.lifecycle.roles && v.lifecycle.admin == w.lifecycle.admin
            && v.controller == w.controller.(issued := v.controller.issued, log := v.controller.log)
  {
  }

  lemma ClawbackLeavesSwitches(w: World, i: Invocation)
    requires i.call.ClawbackClaim?
    ensures var v := Step(w, i);
            && v.registry == w.registry && v.token.deauthorized == w.token.deauthorized && v.lifecycle == w.lifecycle
            && v.controller == w.controller.(issued := v.controller.issued, log := v.controller.log)
  {
  }

  // Every change is authorized, whatever call made it.

  /** Attestations are registered by their own enabled oracle, revoked by the admin or an enabled oracle. */
  predicate RegistryAuthorized(r: Registry, v: Registry, signers: set<Address>) {
    && v.admin == r.admin
    && (v.oracles != r.oracles ==> r.admin in signers)
    && (forall a <- v.attestations :: a !in r.attestations ==>
          v.attestations[a].oracle in signers && Flag(r.oracles, v.attestations[a].oracle))
    && (v.revoked != r.revoked ==> r.admin in signers || exists o <- signers :: Flag(r.oracles, o))
  }

  lemma RegistryChangesAreAuthorized(w: World, i: Invocation)
    ensures RegistryAuthorized(w.registry, Step(w, i).registry, i.signers)
  {
    if RegistryCall(i.call) {
      RegistryCallsAreAuthorized(w, i);
    } else if LifecycleCall(i.call) {
      LifecycleCallsStayThere(w, i);
    } else if SwitchCall(i.call) {
      SwitchesStayThere(w, i);
    } else if TokenCall(i.call) {
      TokenCallsStayThere(w, i);
    } else {
      ClaimTokenCallsStayThere(w, i);
    }
  }

  lemma RegistryCallsAreAuthorized(w: World, i: Invocation)
    requires RegistryCall(i.call)
    ensures RegistryAuthorized(w.registry, Step(w, i).registry, i.signers)
  {
  }

  /** Who may change one stored claim: the admin resumes, a Pauser pauses, an Originator or Control confirms, and
      otherwise the holder of the one role that may leave the state. */
  predicate MayChange(w: World, i: Invocation, c: Claim, d: Claim) {
    if c.state.Paused? then w.lifecycle.admin in i.signers
    else if d.state.Paused? then SignedByRole(w, i, PauserRole)
    else if c.state.Eligible? then SignedByRole(w, i, Originator) || SignedByRole(w, i, Control)
    else SignedByRole(w, i, RoleLeaving(c.state))
  }

  predicate ClaimAuthorized(w: World, i: Invocation, k: Key) {
    var l, v := w.lifecycle, Step(w, i).lifecycle;
    && (k in v.claims && k !in l.claims ==> SignedByRole(w, i, Originator))
    && (k in l.claims ==> k in v.claims)
    && (k in l.claims && v.claims[k] != l.claims[k] ==> MayChange(w, i, l.claims[k], v.claims[k]))
  }

  lemma ClaimChangesAreAuthorized(w: World, i: Invocation, k: Key)
    ensures ClaimAuthorized(w, i, k)
  {
    if RegistryCall(i.call) {
      RegistryCallsStayThere(w, i);
    } else if SwitchCall(i.call) {
      SwitchesStayThere(w, i);
    } else if TokenCall(i.call) {
      TokenCallsStayThere(w, i);
    } else if Plan(w, i).Ok? {
      match i.call
      case SetRole(_, _, _, _) => SetRoleExactly(w, i);
      case CreateClaim(_, _) => CreateIsAuthorized(w, i, k);
      case ConfirmControl(_, _, _, _) => ConfirmIsAuthorized(w, i, k);
      case Transition(_, _, _, _) => TransitionIsAuthorized(w, i, k);
      case Pause(_, _) => PauseIsAuthorized(w, i, k);
      case Resume(_, _, _) => ResumeIsAuthorized(w, i, k);
      case Issue(_, _, _, _) => IssueIsAuthorized(w, i, k);
      case Redeem(_, _, _, _) => RedeemIsAuthorized(w, i, k);
      case ClawbackClaim(_, _, _, _) =>
      ClawbackClaimExactly(w, i);
      ClawbackClaimGives(w, i);
      case CloseClaim(_, _) => CloseIsAuthorized(w, i, k);
    }
  }

  lemma CreateIsAuthorized(w: World, i: Invocation, k: Key)
    requires i.call.CreateClaim? && Plan(w, i).Ok?
    ensures ClaimAuthorized(w, i, k)
  {
    CreateExactly(w, i);
  }

  lemma ConfirmIsAuthorized(w: World, i: Invocation, k: Key)
    requires i.call.ConfirmControl? && Plan(w, i).Ok?
    ensures ClaimAuthorized(w, i, k)
  {
    ConfirmExactly(w, i);
  }

  lemma TransitionIsAuthorized(w: World, i: Invocation, k: Key)
    requires i.call.Transition? && Plan(w, i).Ok?
    ensures ClaimAuthorized(w, i, k)
  {
    TransitionExactly(w, i);
    EdgesRaiseRankByOne(i.call.expected, i.call.next);
  }

  lemma PauseIsAuthorized(w: World, i: Invocation, k: Key)
    requires i.call.Pause? && Plan(w, i).Ok?
    ensures ClaimAuthorized(w, i, k)
  {
    PauseExactly(w, i);
  }

  lemma ResumeIsAuthorized(w: World, i: Invocation, k: Key)
    requires i.call.Resume? && Plan(w, i).Ok?
    ensures ClaimAuthorized(w, i, k)
  {
    ResumeExactly(w, i);
  }

  lemma IssueIsAuthorized(w: World, i: Invocation, k: Key)
    requires i.call.Issue? && Plan(w, i).Ok?
    ensures ClaimAuthorized(w, i, k)
  {
    IssueExactly(w, i);
    IssueGives(w, i);
  }

  lemma RedeemIsAuthorized(w: World, i: Invocation, k: Key)
    requires i.call.Redeem? && Plan(w, i).Ok?
    ensures ClaimAuthorized(w, i, k)
  {
    RedeemExactly(w, i);
    RedeemGives(w, i);
  }

  lemma CloseIsAuthorized(w: World, i: Invocation, k: Key)
    requires i.call.CloseClaim? && Plan(w, i).Ok?
    ensures ClaimAuthorized(w, i, k)
  {
    CloseExactly(w, i);
  }

  lemma RolesAreAuthorized(w: World, i: Invocation)
    ensures Step(w, i).lifecycle.admin == w.lifecycle.admin
    ensures Step(w, i).lifecycle.roles != w.lifecycle.roles ==> w.lifecycle.admin in i.signers
  {
    if RegistryCall(i.call) {
      RegistryCallsStayThere(w, i);
    } else if SwitchCall(i.call) {
      SwitchesStayThere(w, i);
    } else if TokenCall(i.call) {
      TokenCallsStayThere(w, i);
    } else if LifecycleCall(i.call) {
      LifecycleRolesAreAuthorized(w, i);
    } else {
      ClaimTokenCallsStayThere(w, i);
    }
  }

  lemma LifecycleRolesAreAuthorized(w: World, i: Invocation)
    requires LifecycleCall(i.call)
    ensures Step(w, i).lifecycle.admin == w.lifecycle.admin
    ensures Step(w, i).lifecycle.roles != w.lifecycle.roles ==> w.lifecycle.admin in i.signers
  {
  }

  /** The controller's own switches, and holders: a pauser may freeze one, only the operator thaws one, and not while
      the controller is paused. */
  predicate SwitchesAuthorized(w: World, v: World, i: Invocation) {
    var c, d := w.controller, v.controller;
    && d.admin == c.admin && d.operator == c.operator
    && (d.pausers != c.pausers ==> c.admin in i.signers)
    && (d.globalPause != c.globalPause ==> SignedByPauser(w, i))
    && (d.frozen != c.frozen ==> c.operator in i.signers || SignedByPauser(w, i))
    && (forall h <- c.frozen :: c.frozen[h] && !Flag(d.frozen, h) ==> c.operator in i.signers && !c.globalPause)
    && (forall h <- w.token.deauthorized :: h !in v.token.deauthorized ==> c.operator in i.signers && !c.globalPause)
  }

  lemma SwitchesAreAuthorized(w: World, i: Invocation)
    ensures SwitchesAuthorized(w, Step(w, i), i)
  {
    if RegistryCall(i.call) {
      RegistryCallsStayThere(w, i);
    } else if LifecycleCall(i.call) {
      LifecycleCallsStayThere(w, i);
    } else if TokenCall(i.call) {
      TokenCallsStayThere(w, i);
    } else if SwitchCall(i.call) {
      if Plan(w, i).Ok? { SwitchCallsAreAuthorized(w, i); }
    } else {
      ClaimTokenCallsStayThere(w, i);
    }
  }

  lemma SwitchCallsAreAuthorized(w: World, i: Invocation)
    requires SwitchCall(i.call) && Plan(w, i).Ok?
    ensures SwitchesAuthorized(w, Step(w, i), i)
  {
    match i.call
    case SetPauser(_, _, _) => SetPauserExactly(w, i);
    case SetGlobalPause(_, _) => SetGlobalPauseExactly(w, i);
    case AuthorizeHolder(_, _, _) => AuthorizeHolderExactly(w, i);
    case Freeze(_, _) => FreezeExactly(w, i);
  }

  /** Issuance moves only with the operator's signature; it rises only by an issue of the operator while nothing is
      paused, to a holder who is not frozen, and a redemption needs the holder's signature too. */
  predicate IssuanceAuthorized(w: World, v: World, i: Invocation, k: Key) {
    var c, d := w.controller, v.controller;
    && (d.Outstanding(k) != c.Outstanding(k) ==> c.operator in i.signers)
    && (d.Outstanding(k) > c.Outstanding(k) ==>
          i.call.Issue? && i.call.k == k && !c.globalPause && !Flag(c.frozen, i.call.holder))
    && (d.Outstanding(k) < c.Outstanding(k) ==>
          (i.call.ClawbackClaim? || (i.call.Redeem? && i.call.holder in i.signers))
          && i.call.k == k && Lookup(c.holder, k) == Some(i.call.holder))
  }

  lemma IssuanceChangesAreAuthorized(w: World, i: Invocation, k: Key)
    ensures IssuanceAuthorized(w, Step(w, i), i, k)
  {
    if RegistryCall(i.call) {
      RegistryCallsStayThere(w, i);
    } else if LifecycleCall(i.call) {
      LifecycleCallsStayThere(w, i);
    } else if TokenCall(i.call) {
      TokenCallsStayThere(w, i);
    } else if SwitchCall(i.call) {
      SwitchesStayThere(w, i);
    } else if Plan(w, i).Ok? {
      ClaimTokenCallsAreAuthorized(w, i, k);
    }
  }

  lemma ClaimTokenCallsAreAuthorized(w: World, i: Invocation, k: Key)
    requires i.call.Issue? || i.call.Redeem? || i.call.ClawbackClaim? || i.call.CloseClaim?
    requires Plan(w, i).Ok?
    ensures IssuanceAuthorized(w, Step(w, i), i, k)
  {
    match i.call
    case Issue(_, _, _, _) =>
      IssueExactly(w, i);
      IssueGives(w, i);
    case Redeem(_, _, _, _) =>
      RedeemExactly(w, i);
      RedeemGives(w, i);
    case ClawbackClaim(_, _, _, _) =>
      ClawbackClaimExactly(w, i);
      ClawbackClaimGives(w, i);
    case CloseClaim(_, _) => CloseExactly(w, i);
  }

  /** Tokens leave an account with the operator's signature, or that of a spender the asset accepts. */
  lemma TokensLeaveWithConsent(w: World, i: Invocation, a: Address)
    ensures Step(w, i).token.Balance(a) < w.token.Balance(a) ==>
              || w.controller.operator in i.signers
              || (i.host && (i.call.Transfer? || i.call.BurnHeld?) && i.call.spender in i.signers)
  {
    if RegistryCall(i.call) {
      RegistryCallsStayThere(w, i);
    } else if LifecycleCall(i.call) {
      LifecycleCallsStayThere(w, i);
    } else if SwitchCall(i.call) {
      SwitchesStayThere(w, i);
    } else if Plan(w, i).Ok? && !i.call.Tick? {
      SpendingNeedsConsent(w, i);
    }
  }

  lemma SpendingNeedsConsent(w: World, i: Invocation)
    requires Plan(w, i).Ok? && !RegistryCall(i.call) && !LifecycleCall(i.call) && !SwitchCall(i.call) && !i.call.Tick?
    ensures || w.controller.operator in i.signers
            || (i.host && (i.call.Transfer? || i.call.BurnHeld?) && i.call.spender in i.signers)
  {
    match i.call
    case Issue(_, _, _, _) => IssueExactly(w, i);
    case Redeem(_, _, _, _) => RedeemExactly(w, i);
    case Clawback(_, _, _) => ClawbackExactly(w, i);
    case ClawbackClaim(_, _, _, _) => ClawbackClaimExactly(w, i);
    case CloseClaim(_, _) => CloseExactly(w, i);
    case _ =>
  }

  // The circuit breaker.

  /** No call of the run lifts the global pause. */
  predicate NeverLifted(w: World, calls: seq<Invocation>) {
    forall j | 0 <= j < |calls| ::
      calls[j].call.SetGlobalPause? && !calls[j].call.paused ==> !Plan(Run(w, calls[..j]), calls[j]).Ok?
  }

  lemma PausedStep(w: World, i: Invocation, k: Key, h: Address)
    requires w.controller.globalPause && (i.call.SetGlobalPause? && !i.call.paused ==> !Plan(w, i).Ok?)
    ensures var c, v := w.controller, Step(w, i).controller;
            && v.globalPause && v.Outstanding(k) <= c.Outstanding(k)
            && (Flag(c.frozen, h) ==> Flag(v.frozen, h))
            && (h in w.token.deauthorized ==> h in Step(w, i).token.deauthorized)
  {
    IssuanceChangesAreAuthorized(w, i, k);
    SwitchesAreAuthorized(w, i);
    PauseLiftedByCall(w, i);
  }

  lemma PauseLiftedByCall(w: World, i: Invocation)
    requires w.controller.globalPause && (i.call.SetGlobalPause? && !i.call.paused ==> !Plan(w, i).Ok?)
    ensures Step(w, i).controller.globalPause
  {
    if RegistryCall(i.call) {
      RegistryCallsStayThere(w, i);
    } else if LifecycleCall(i.call) {
      LifecycleCallsStayThere(w, i);
    } else if TokenCall(i.call) {
      TokenCallsStayThere(w, i);
    } else if SwitchCall(i.call) {
      if Plan(w, i).Ok? { SwitchCallsLiftNothingElse(w, i); }
    } else {
      ClaimTokenCallsStayThere(w, i);
    }
  }

  lemma SwitchCallsLiftNothingElse(w: World, i: Invocation)
    requires SwitchCall(i.call) && Plan(w, i).Ok? && !(i.call.SetGlobalPause? && !i.call.paused)
    ensures w.controller.globalPause ==> Step(w, i).controller.globalPause
  {
    match i.call
    case SetPauser(_, _, _) => SetPauserExactly(w, i);
    case SetGlobalPause(_, _) => SetGlobalPauseExactly(w, i);
    case AuthorizeHolder(_, _, _) => AuthorizeHolderExactly(w, i);
    case Freeze(_, _) => FreezeExactly(w, i);
  }

  lemma PausedIssuesNothing(w: World, i: Invocation, k: Key)
    requires w.controller.globalPause
    ensures IssueCount(Step(w, i).controller.log, k) == IssueCount(w.controller.log, k)
  {
    if Plan(w, i).Ok? {
      PlannedMovesAreLegal(w, i);
      IssuesLogged(w, Plan(w, i).value, k);
      PausedIssueFails(w, i);
    }
  }

  lemma PausedIssueFails(w: World, i: Invocation)
    requires w.controller.globalPause && Plan(w, i).Ok?
    ensures !Plan(w, i).value.Issue?
  {
  }

  /** While the controller is paused no claim's issuance rises, nothing is issued, and nobody is thawed, over any
      run in which the pause is not lifted. */
  lemma {:induction false} BreakerHolds(w: World, calls: seq<Invocation>, k: Key, h: Address)
    requires w.controller.globalPause && NeverLifted(w, calls)
    ensures var c, v := w.controller, Run(w, calls).controller;
            && v.globalPause && v.Outstanding(k) <= c.Outstanding(k)
            && IssueCount(v.log, k) == IssueCount(c.log, k)
            && (Flag(c.frozen, h) ==> Flag(v.frozen, h))
            && (h in w.token.deauthorized ==> h in Run(w, calls).token.deauthorized)
  {
    if calls != [] {
      var init, last := calls[..|calls| - 1], calls[|calls| - 1];
      forall j | 0 <= j < |init| && init[j].call.SetGlobalPause? && !init[j].call.paused
        ensures !Plan(Run(w, init[..j]), init[j]).Ok?
      {
        assert init[..j] == calls[..j] && init[j] == calls[j];
      }
      BreakerHolds(w, init, k, h);
      PausedStep(Run(w, init), last, k, h);
      PausedIssuesNothing(Run(w, init), last, k);
    }
  }

  /** What an operator and a holder hear while the controller is paused. */
  lemma BreakerAnswers(w: World, i: Invocation)
    requires w.controller.globalPause && w.controller.operator in i.signers
    requires (i.call.Issue? || i.call.AuthorizeHolder?) && i.call.operator == w.controller.operator
    ensures Plan(w, i) == Err(CircuitBreakerActive)
  {
  }

  /** How many issues of a claim in a run its operator has signed. */
  function SignedIssues(w: World, calls: seq<Invocation>, k: Key): nat {
    if calls == [] then 0
    else
      var v, i := Run(w, calls[..|calls| - 1]), calls[|calls| - 1];
      SignedIssues(w, calls[..|calls| - 1], k) +
      Bit(i.call.Issue? && i.call.k == k && Plan(v, i).Ok?
          && v.controller.operator in i.signers && !v.controller.globalPause)
  }

  lemma IssueIsSigned(w: World, i: Invocation, k: Key)
    ensures IssueCount(Step(w, i).controller.log, k) == IssueCount(w.controller.log, k) +
              Bit(i.call.Issue? && i.call.k == k && Plan(w, i).Ok?)
  {
    if Plan(w, i).Ok? {
      PlannedMovesAreLegal(w, i);
      IssuesLogged(w, Plan(w, i).value, k);
      IssueMoves(w, i);
    }
  }

  lemma IssueNeedsTheOperator(w: World, i: Invocation)
    requires i.call.Issue? && Plan(w, i).Ok?
    ensures w.controller.operator in i.signers && !w.controller.globalPause
  {
    IssueExactly(w, i);
  }

  lemma IssueMoves(w: World, i: Invocation)
    requires Plan(w, i).Ok?
    ensures Plan(w, i).value.Issue? <==> i.call.Issue?
    ensures i.call.Issue? ==> Plan(w, i).value.k == i.call.k
  {
  }

  /** Every issue in the log was signed by the operator, while nothing was paused. */
  lemma {:induction false} EveryIssueIsSigned(w: World, calls: seq<Invocation>, k: Key)
    requires Genesis(w)
    ensures IssueCount(Run(w, calls).controller.log, k) == SignedIssues(w, calls, k)
  {
    if calls != [] {
      EveryIssueIsSigned(w, calls[..|calls| - 1], k);
      var v, i := Run(w, calls[..|calls| - 1]), calls[|calls| - 1];
      IssueIsSigned(v, i, k);
      if i.call.Issue? && Plan(v, i).Ok? { IssueNeedsTheOperator(v, i); }
    }
  }

  // What the originator gets.

  /** The identity and principal fields of a claim, one by one, as the originator gave them. */
  predicate HasTerms(c: Claim, i: Invocation)
    requires i.call.CreateClaim?
  {
    && c.claimKey == i.call.terms.claimKey
    && c.sellerSubjectHash == i.call.terms.sellerSubjectHash
    && c.facilityId == i.call.terms.facilityId
    && c.sourceAmount == i.call.terms.sourceAmount
    && c.sourceCurrencyHash == i.call.terms.sourceCurrencyHash
    && c.attestationKey == i.call.terms.attestationKey
    && c.approvedPrincipal == i.call.terms.approvedPrincipal
  }

  lemma CreationHasTerms(w: World, i: Invocation)
    requires i.call.CreateClaim? && Plan(w, i).Ok?
    ensures i.call.terms.claimKey in Step(w, i).lifecycle.claims
    ensures HasTerms(Step(w, i).lifecycle.claims[i.call.terms.claimKey], i)
  {
  }

  /** Whatever happens before and after, a created claim keeps the terms its originator gave, and no more than the
      principal given is ever issued on it. */
  lemma CreatedClaimsKeepTheirTerms(w: World, before: seq<Invocation>, i: Invocation, later: seq<Invocation>)
    requires Genesis(w) && i.call.CreateClaim? && Plan(Run(w, before), i).Ok?
    ensures var v, k := Run(Step(Run(w, before), i), later), i.call.terms.claimKey;
            && k in v.lifecycle.claims && HasTerms(v.lifecycle.claims[k], i)
            && 0 <= v.controller.Outstanding(k) <= i.call.terms.approvedPrincipal
  {
    CreationHasTerms(Run(w, before), i);
    RunsContinue(Step(Run(w, before), i), later);
    RunAppend(w, before, i);
    RunConcat(w, before + [i], later);
    IssuanceBound(w, before + [i] + later, i.call.terms.claimKey);
    CreationIsPrincipled(w, before + [i] + later, i.call.terms.claimKey);
  }

  lemma CreationIsPrincipled(w: World, calls: seq<Invocation>, k: Key)
    requires Genesis(w) && k in Run(w, calls).lifecycle.claims
    ensures Run(w, calls).lifecycle.claims[k].approvedPrincipal > 0
  {
    ClaimsKeepTheirAttestation(w, calls);
  }
}
