/** Shared vocabulary of the Soroban contracts: widths, errors, roles, claim states and records. */
module Common {
  import opened Options

  type I128 = x: int | -0x8000_0000_0000_0000_0000_0000_0000_0000 <= x < 0x8000_0000_0000_0000_0000_0000_0000_0000
  type U64 = x: int | 0 <= x < 0x1_0000_0000_0000_0000
  type U32 = x: int | 0 <= x < 0x1_0000_0000

  const I128_MAX: int := 0x7FFF_FFFF_FFFF_FFFF_FFFF_FFFF_FFFF_FFFF
  const U32_MAX: int := 0xFFFF_FFFF

  /** An account or contract identity. */
  datatype Address = Address(id: nat)

  /** A 32-byte key or hash (`BytesN<32>`). */
  datatype Key = Key(id: nat)

  type Symbol = string

  datatype ContractError =
    | AlreadyInitialized | AuthRequired | Forbidden | NotFound | ValidationFailed
    | InvalidStateTransition | AttestationMissing | AttestationExpired | AttestationRevoked
    | ControlNotVerified | ClaimAlreadyEncumbered | InsufficientFacilityLiquidity
    | HolderNotAuthorized | AssetOperationFailed | WaterfallInvariantFailed
    | CircuitBreakerActive | ArithmeticOverflow | Replay | TerminalState
    | AmountNotPositive | VersionConflict

  /** What an entrypoint answers: a value, a contract error, or a host trap (failed
      authorization, failed nested call, arithmetic overflow panic). */
  datatype Result<+T> = Ok(value: T) | Err(code: ContractError) | Trap {
    predicate IsFailure() { !Ok? }
    function PropagateFailure<U>(): Result<U>
      requires IsFailure()
    {
      match this case Err(code) => Err(code) case Trap => Trap
    }
    function Extract(): T
      requires Ok?
    {
      value
    }
  }

  /** A guard on the way to a Result. */
  datatype Check = Pass | Fail(code: ContractError) | Abort {
    predicate IsFailure() { !Pass? }
    function PropagateFailure<U>(): Result<U>
      requires IsFailure()
    {
      match this case Fail(code) => Err(code) case Abort => Trap
    }
  }

  function Need(condition: bool, code: ContractError): Check {
    if condition then Pass else Fail(code)
  }

  /** `require_auth`, a host assertion: a missing signature traps. */
  function NeedAuth(signers: set<Address>, actor: Address): Check {
    if actor in signers then Pass else Abort
  }

  function NeedPositive(amount: int): Check {
    Need(amount > 0, AmountNotPositive)
  }

  datatype Role = AdminRole | OracleRole | Originator | Control | Issuer | Facility | Servicer | Resolver | PauserRole

  datatype ClaimState =
    | Eligible | Controlled | Issued | Funded | Settling | Repaid | Redeemed
    | Shortfall | Resolution | Closed | ClosedWithLoss | Paused
  {
    predicate Terminal() { Closed? || ClosedWithLoss? }
  }

  datatype Attestation = Attestation(
    attestationKey: Key, claimKey: Key, envelopeHash: Key, dataSnapshotHash: Key,
    sdsBps: U32, esvBaseUnits: I128, expiresAt: U64, oracle: Address)

  datatype Claim = Claim(
    claimKey: Key, sellerSubjectHash: Key, facilityId: Key, sourceAmount: I128, sourceCurrencyHash: Key,
    approvedPrincipal: I128, attestationKey: Key, state: ClaimState, stateVersion: U32,
    evidenceHash: Option<Key>, controlExpiresAt: U64, pausedFrom: ClaimState, hasPausedFrom: bool)
  {
    /** The state the claim is in, seen through a pause. */
    function Effective(): ClaimState {
      if state.Paused? then pausedFrom else state
    }
  }

  function Lookup<K, V>(m: map<K, V>, k: K): Option<V> {
    if k in m then Some(m[k]) else None
  }

  /** Storage reads with `unwrap_or(false)`. */
  predicate Flag<K>(m: map<K, bool>, k: K) {
    k in m && m[k]
  }
}
