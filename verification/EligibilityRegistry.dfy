/** The eligibility registry: write-once attestations and revocations. */
module EligibilityRegistry {
  import opened Common
  import opened Ledger

  const MAX_BPS := 10_000

  function PlanSetOracle(r: Registry, signers: set<Address>, admin: Address, oracle: Address,
      enabled: bool): Result<Move> {
    var authorized := NeedAuth(signers, admin);
    :- authorized;
    :- Need(r.admin == admin, Forbidden);
    Ok(SetOracle(oracle, enabled))
  }

  function PlanRegister(r: Registry, now: U64, signers: set<Address>, oracle: Address, a: Attestation): Result<Move> {
    var authorized := NeedAuth(signers, oracle);
    :- authorized;
    :- Need(Flag(r.oracles, oracle), Forbidden);
    :- Need(a.oracle == oracle && a.sdsBps <= MAX_BPS && a.esvBaseUnits >= 0, ValidationFailed);
    :- Need(a.expiresAt > now, AttestationExpired);
    :- Need(a.attestationKey !in r.attestations, ContractError.Replay);
    Ok(Register(a))
  }

  function PlanRevoke(r: Registry, signers: set<Address>, actor: Address, key: Key, reason: Symbol): Result<Move> {
    var authorized := NeedAuth(signers, actor);
    :- authorized;
    :- Need(actor == r.admin || Flag(r.oracles, actor), Forbidden);
    :- Need(key in r.attestations, AttestationMissing);
    :- Need(key !in r.revoked, ContractError.Replay);
    Ok(Revoke(key, reason))
  }

  class EligibilityRegistry {
    const admin: Address
    var oracles: map<Address, bool>
    var attestations: map<Key, Attestation>
    var revoked: map<Key, Symbol>

    function State(): Registry
      reads this
    {
      Registry(admin, oracles, attestations, revoked)
    }

    constructor (admin: Address, oracle: Address)
      ensures State() == Registry(admin, map[oracle := true], map[], map[])
    {
      this.admin := admin;
      oracles := map[oracle := true];
      attestations, revoked := map[], map[];
    }

    method RegisterAttestation(now: U64, signers: set<Address>, oracle: Address, a: Attestation) returns (r: Result<()>)
      modifies this
      ensures var plan := PlanRegister(old(State()), now, signers, oracle, a);
              Answers(plan, r) && State() == if plan.Ok? then ApplyRegistry(old(State()), plan.value) else old(State())
    {
      if oracle !in signers { return Trap; }
      if !Flag(oracles, oracle) { return Err(Forbidden); }
      if a.oracle != oracle || a.sdsBps > MAX_BPS || a.esvBaseUnits < 0 { return Err(ValidationFailed); }
      if a.expiresAt <= now { return Err(AttestationExpired); }
      if a.attestationKey in attestations { return Err(ContractError.Replay); }
      attestations := attestations[a.attestationKey := a];
      return Ok(());
    }

    method RevokeAttestation(signers: set<Address>, actor: Address, key: Key, reason: Symbol) returns (r: Result<()>)
      modifies this
      ensures var plan := PlanRevoke(old(State()), signers, actor, key, reason);
              Answers(plan, r) && State() == if plan.Ok? then ApplyRegistry(old(State()), plan.value) else old(State())
    {
      if actor !in signers { return Trap; }
      if actor != admin && !Flag(oracles, actor) { return Err(Forbidden); }
      if key !in attestations { return Err(AttestationMissing); }
      if key in revoked { return Err(ContractError.Replay); }
      revoked := revoked[key := reason];
      return Ok(());
    }

    method GetAttestation(key: Key) returns (r: Result<Attestation>)
      ensures key in attestations ==> r == Ok(attestations[key])
      ensures key !in attestations ==> r == Err(AttestationMissing)
    {
      if key !in attestations { return Err(AttestationMissing); }
      return Ok(attestations[key]);
    }

    method IsActive(key: Key, now: U64) returns (active: bool)
      ensures active == State().Active(key, now)
    {
      if key !in attestations { return false; }
      return key !in revoked && now < attestations[key].expiresAt;
    }
  }
}
