/** The claim lifecycle contract: claim creation, control, the state graph, pause and resume. */
module ClaimLifecycle {
  import opened Options
  import opened Common
  import opened Ledger
  import opened EligibilityRegistry

  function PlanSetRole(l: Lifecycle, signers: set<Address>, admin: Address, role: Role, actor: Address,
      enabled: bool): Result<Move> {
    var authorized := NeedAuth(signers, admin);
    :- authorized;
    :- Need(l.admin == admin, Forbidden);
    Ok(SetRole(role, actor, enabled))
  }

  /** What the originator supplies to `create_claim`. */
  datatype ClaimTerms = ClaimTerms(
    claimKey: Key, sellerSubjectHash: Key, facilityId: Key, sourceAmount: I128, sourceCurrencyHash: Key,
    attestationKey: Key, approvedPrincipal: I128)

  function FreshClaim(t: ClaimTerms): Claim {
    Claim(t.claimKey, t.sellerSubjectHash, t.facilityId, t.sourceAmount, t.sourceCurrencyHash,
          t.approvedPrincipal, t.attestationKey, Eligible, 1, None, 0, Eligible, false)
  }

  function PlanCreate(l: Lifecycle, r: Registry, now: U64, signers: set<Address>, originator: Address,
      t: ClaimTerms): Result<Move> {
    var authorized := NeedAuth(signers, originator);
    :- authorized;
    :- Need(l.HasRole(Originator, originator), Forbidden);
    :- NeedPositive(t.sourceAmount);
    :- NeedPositive(t.approvedPrincipal);
    :- Need(t.claimKey !in l.claims, ClaimAlreadyEncumbered);
    :- Need(r.Active(t.attestationKey, now), AttestationExpired);
    :- Need(r.attestations[t.attestationKey].claimKey == t.claimKey, ValidationFailed);
    Ok(Create(FreshClaim(t)))
  }

  function PlanConfirm(l: Lifecycle, now: U64, signers: set<Address>, actor: Address, k: Key, evidence: Key,
      expiresAt: U64): Result<Move> {
    var authorized := NeedAuth(signers, actor);
    :- authorized;
    :- Need(l.HasRole(Originator, actor) || l.HasRole(Control, actor), Forbidden);
    :- Need(expiresAt > now, ValidationFailed);
    :- Need(k in l.claims, NotFound);
    :- Need(l.claims[k].state == Eligible, InvalidStateTransition);
    :- Need(l.claims[k].stateVersion < U32_MAX, ArithmeticOverflow);
    Ok(Confirm(k, evidence, expiresAt))
  }

  /** `validate_transition`: who may take which edge, and when. */
  predicate ValidTransition(l: Lifecycle, now: U64, actor: Address, c: Claim, next: ClaimState) {
    match (c.state, next)
    case (Controlled, Issued) => l.HasRole(Issuer, actor) && c.controlExpiresAt > now
    case (Issued, Funded) => l.HasRole(Facility, actor)
    case (Funded, Settling) => l.HasRole(Servicer, actor)
    case (Settling, Repaid) => l.HasRole(Servicer, actor)
    case (Settling, Shortfall) => l.HasRole(Servicer, actor)
    case (Repaid, Redeemed) => l.HasRole(Issuer, actor)
    case (Redeemed, Closed) => l.HasRole(Issuer, actor)
    case (Shortfall, Resolution) => l.HasRole(Resolver, actor)
    case (Resolution, Closed) => l.HasRole(Resolver, actor)
    case (Resolution, ClosedWithLoss) => l.HasRole(Resolver, actor)
    case _ => false
  }

  function PlanTransition(l: Lifecycle, now: U64, signers: set<Address>, actor: Address, k: Key, expected: ClaimState,
      next: ClaimState): Result<Move> {
    var authorized := NeedAuth(signers, actor);
    :- authorized;
    :- Need(k in l.claims, NotFound);
    :- Need(!l.claims[k].state.Terminal(), TerminalState);
    :- Need(l.claims[k].state == expected, VersionConflict);
    :- Need(ValidTransition(l, now, actor, l.claims[k], next), InvalidStateTransition);
    :- Need(l.claims[k].stateVersion < U32_MAX, ArithmeticOverflow);
    Ok(Advance(k, next))
  }

  function PlanPause(l: Lifecycle, signers: set<Address>, pauser: Address, k: Key): Result<Move> {
    var authorized := NeedAuth(signers, pauser);
    :- authorized;
    :- Need(l.HasRole(PauserRole, pauser), Forbidden);
    :- Need(k in l.claims, NotFound);
    :- Need(!l.claims[k].state.Terminal(), TerminalState);
    :- Need(l.claims[k].state != Paused, ContractError.Replay);
    if l.claims[k].stateVersion < U32_MAX then Ok(Suspend(k)) else Trap
  }

  function PlanResume(l: Lifecycle, signers: set<Address>, admin: Address, k: Key, target: ClaimState): Result<Move> {
    var authorized := NeedAuth(signers, admin);
    :- authorized;
    :- Need(l.admin == admin, Forbidden);
    :- Need(k in l.claims, NotFound);
    var c := l.claims[k];
    var exact := c.pausedFrom == target;
    var compensated := c.pausedFrom == ClaimState.Issued && target == Controlled;
    :- Need(c.state == Paused && c.hasPausedFrom && (exact || compensated), InvalidStateTransition);
    if c.stateVersion < U32_MAX then Ok(Reinstate(k, target)) else Trap
  }

  class ClaimLifecycle {
    const admin: Address
    const registry: EligibilityRegistry
    var roles: map<(Role, Address), bool>
    var claims: map<Key, Claim>
    var log: seq<ClaimEvent>

    function State(): Lifecycle
      reads this
    {
      Lifecycle(admin, roles, claims, log)
    }

    constructor (admin: Address, registry: EligibilityRegistry)
      ensures State() == Lifecycle(admin, map[], map[], []) && this.registry == registry
    {
      this.admin, this.registry := admin, registry;
      roles, claims, log := map[], map[], [];
    }

    method CreateClaim(now: U64, signers: set<Address>, originator: Address, t: ClaimTerms) returns (r: Result<Claim>)
      modifies this
      ensures var plan := PlanCreate(old(State()), old(registry.State()), now, signers, originator, t);
              Answers(plan, r) && State() == if plan.Ok? then ApplyLifecycle(old(State()), plan.value) else old(State())
      ensures r.Ok? ==> t.claimKey in claims && r.value == claims[t.claimKey]
    {
      if originator !in signers { return Trap; }
      if !State().HasRole(Originator, originator) { return Err(Forbidden); }
      if t.sourceAmount <= 0 { return Err(AmountNotPositive); }
      if t.approvedPrincipal <= 0 { return Err(AmountNotPositive); }
      if t.claimKey in claims { return Err(ClaimAlreadyEncumbered); }
      var active := registry.IsActive(t.attestationKey, now);
      if !active { return Err(AttestationExpired); }
      var attestation := registry.GetAttestation(t.attestationKey);
      if !attestation.Ok? { return Trap; }
      if attestation.value.claimKey != t.claimKey { return Err(ValidationFailed); }
      var claim := FreshClaim(t);
      claims := claims[t.claimKey := claim];
      log := log + [Created(t.claimKey)];
      return Ok(claim);
    }

    method ConfirmControl(now: U64, signers: set<Address>, actor: Address, k: Key, evidence: Key, expiresAt: U64)
      returns (r: Result<Claim>)
      modifies this
      ensures var plan := PlanConfirm(old(State()), now, signers, actor, k, evidence, expiresAt);
              Answers(plan, r) && State() == if plan.Ok? then ApplyLifecycle(old(State()), plan.value) else old(State())
      ensures r.Ok? ==> k in claims && r.value == claims[k]
    {
      if actor !in signers { return Trap; }
      if !State().HasRole(Originator, actor) && !State().HasRole(Control, actor) { return Err(Forbidden); }
      if expiresAt <= now { return Err(ValidationFailed); }
      if k !in claims { return Err(NotFound); }
      var claim := claims[k];
      if claim.state != Eligible { return Err(InvalidStateTransition); }
      claim := claim.(state := Controlled);
      if claim.stateVersion == U32_MAX { return Err(ArithmeticOverflow); }
      claim := claim.(stateVersion := claim.stateVersion + 1);
      claim := claim.(evidenceHash := Some(evidence));
      claim := claim.(controlExpiresAt := expiresAt);
      claims := claims[k := claim];
      log := log + [Confirmed(k)];
      return Ok(claim);
    }

    method Transition(now: U64, signers: set<Address>, actor: Address, k: Key, expected: ClaimState, next: ClaimState)
      returns (r: Result<Claim>)
      modifies this
      ensures Answers(PlanTransition(old(State()), now, signers, actor, k, expected, next), r)
      ensures r.Ok? ==> CanEnter(old(State()), k) && State() == Enter(old(State()), k, next) && r.value == claims[k]
      ensures !r.Ok? ==> State() == old(State())
    {
      ghost var plan := PlanTransition(State(), now, signers, actor, k, expected, next);
      if actor !in signers { return Trap; }
      if k !in claims { return Err(NotFound); }
      var claim := claims[k];
      if claim.state.Terminal() { return Err(TerminalState); }
      if claim.state != expected { return Err(VersionConflict); }
      if !ValidTransition(State(), now, actor, claim, next) {
        assert plan == Err(InvalidStateTransition);
        return Err(InvalidStateTransition);
      }
      assert plan == if CanEnter(State(), k) then Ok(Advance(k, next)) else Err(ArithmeticOverflow);
      r := Move(k, next);
    }

    /** The writing half of `transition`. */
    method Move(k: Key, next: ClaimState) returns (r: Result<Claim>)
      requires k in claims
      modifies this
      ensures if CanEnter(old(State()), k)
              then State() == Enter(old(State()), k, next) && r == Ok(claims[k])
              else State() == old(State()) && r == Err(ArithmeticOverflow)
    {
      var claim := claims[k];
      var previous := claim.state;
      claim := claim.(state := next);
      if claim.stateVersion == U32_MAX { return Err(ArithmeticOverflow); }
      claim := claim.(stateVersion := claim.stateVersion + 1);
      claims := claims[k := claim];
      log := log + [Transitioned(k, previous, next, claim.stateVersion)];
      return Ok(claim);
    }

    method Pause(signers: set<Address>, pauser: Address, k: Key) returns (r: Result<Claim>)
      modifies this
      ensures var plan := PlanPause(old(State()), signers, pauser, k);
              Answers(plan, r) && State() == if plan.Ok? then ApplyLifecycle(old(State()), plan.value) else old(State())
      ensures r.Ok? ==> k in claims && r.value == claims[k]
    {
      if pauser !in signers { return Trap; }
      if !State().HasRole(PauserRole, pauser) { return Err(Forbidden); }
      if k !in claims { return Err(NotFound); }
      var claim := claims[k];
      if claim.state.Terminal() { return Err(TerminalState); }
      if claim.state == Paused { return Err(ContractError.Replay); }
      var previous := claim.state;
      claim := claim.(pausedFrom := previous);
      claim := claim.(hasPausedFrom := true);
      claim := claim.(state := Paused);
      if claim.stateVersion == U32_MAX { return Trap; }
      claim := claim.(stateVersion := claim.stateVersion + 1);
      claims := claims[k := claim];
      log := log + [Transitioned(k, previous, Paused, claim.stateVersion)];
      return Ok(claim);
    }

    method Resume(signers: set<Address>, actor: Address, k: Key, target: ClaimState) returns (r: Result<Claim>)
      modifies this
      ensures var plan := PlanResume(old(State()), signers, actor, k, target);
              Answers(plan, r) && State() == if plan.Ok? then ApplyLifecycle(old(State()), plan.value) else old(State())
      ensures r.Ok? ==> k in claims && r.value == claims[k]
    {
      if actor !in signers { return Trap; }
      if admin != actor { return Err(Forbidden); }
      if k !in claims { return Err(NotFound); }
      var claim := claims[k];
      var exact := claim.pausedFrom == target;
      var compensated := claim.pausedFrom == ClaimState.Issued && target == Controlled;
      if claim.state != Paused || !claim.hasPausedFrom || (!exact && !compensated) {
        return Err(InvalidStateTransition);
      }
      claim := claim.(state := target);
      claim := claim.(hasPausedFrom := false);
      if claim.stateVersion == U32_MAX { return Trap; }
      claim := claim.(stateVersion := claim.stateVersion + 1);
      claims := claims[k := claim];
      log := log + [Transitioned(k, Paused, target, claim.stateVersion)];
      return Ok(claim);
    }

    method GetClaim(k: Key) returns (r: Result<Claim>)
      ensures k in claims ==> r == Ok(claims[k])
      ensures k !in claims ==> r == Err(NotFound)
    {
      if k !in claims { return Err(NotFound); }
      return Ok(claims[k]);
    }

    method AttestationActive(k: Key, now: U64) returns (r: Result<bool>)
      ensures k in claims ==> r == Ok(registry.State().Active(claims[k].attestationKey, now))
      ensures k !in claims ==> r == Err(NotFound)
    {
      if k !in claims { return Err(NotFound); }
      var active := registry.IsActive(claims[k].attestationKey, now);
      return Ok(active);
    }
  }
}
