/** The storage of the three contracts and of the jCLAIM asset, and the effect of every accepted move. */
module Ledger {
  import opened Options
  import opened Common

  datatype Registry = Registry(
    admin: Address, oracles: map<Address, bool>,
    attestations: map<Key, Attestation>, revoked: map<Key, Symbol>)
  {
    predicate Active(key: Key, at: int) {
      key in attestations && key !in revoked && at < attestations[key].expiresAt
    }
  }

  datatype ClaimEvent =
    | Created(claimKey: Key)
    | Confirmed(claimKey: Key)
    | Transitioned(claimKey: Key, previous: ClaimState, next: ClaimState, version: U32)

  datatype Lifecycle = Lifecycle(
    admin: Address, roles: map<(Role, Address), bool>, claims: map<Key, Claim>, log: seq<ClaimEvent>)
  {
    predicate HasRole(role: Role, actor: Address) {
      Flag(roles, (role, actor))
    }
  }

  datatype AssetEvent =
    | AssetIssued(claimKey: Key, holder: Address, amount: int)
    | AssetRedeemed(claimKey: Key, holder: Address, amount: int)
    | AssetClawedBack(holder: Address, amount: int)
    | ClaimAssetClawedBack(claimKey: Key, holder: Address, amount: int, remaining: int)

  datatype Controller = Controller(
    admin: Address, operator: Address, pausers: map<Address, bool>,
    issued: map<Key, I128>, holder: map<Key, Address>, frozen: map<Address, bool>,
    globalPause: bool, log: seq<AssetEvent>)
  {
    /** `get_issued_for_claim`. */
    function Outstanding(k: Key): I128 {
      if k in issued then issued[k] else 0
    }
  }

  /** The jCLAIM Stellar asset contract, as far as the controller relies on it. */
  datatype Token = Token(balances: map<Address, nat>, deauthorized: set<Address>) {
    function Balance(a: Address): nat {
      if a in balances then balances[a] else 0
    }
  }

  datatype World = World(
    registry: Registry, lifecycle: Lifecycle, controller: Controller, token: Token, now: U64)

  /** One accepted change of the ledger. */
  datatype Move =
    | SetOracle(oracle: Address, enabled: bool)
    | Register(attestation: Attestation)
    | Revoke(attestationKey: Key, reason: Symbol)
    | SetRole(role: Role, actor: Address, enabled: bool)
    | Create(claim: Claim)
    | Confirm(k: Key, evidence: Key, expiresAt: U64)
    | Advance(k: Key, next: ClaimState)
    | Suspend(k: Key)
    | Reinstate(k: Key, target: ClaimState)
    | SetPauser(pauser: Address, enabled: bool)
    | SetGlobalPause(paused: bool)
    | Authorize(holder: Address, enabled: bool)
    | Issue(k: Key, holder: Address, amount: int)
    | Redeem(k: Key, holder: Address, amount: int, finishes: bool)
    | Sweep(holder: Address, amount: int)
    | ClawbackClaim(k: Key, holder: Address, amount: int)
    | CloseOut(k: Key)
    | Transfer(sender: Address, recipient: Address, amount: int)
    | HolderBurn(holder: Address, amount: int)
    | Tick(at: U64)

  /** An entrypoint succeeds when its guards plan a move and otherwise fails exactly as they do. */
  predicate Answers<V>(plan: Result<Move>, r: Result<V>) {
    match plan
    case Ok(_) => r.Ok?
    case Err(code) => r == Err(code)
    case Trap => r == Trap
  }

  function ApplyRegistry(r: Registry, m: Move): Registry {
    match m
    case SetOracle(oracle, enabled) => r.(oracles := r.oracles[oracle := enabled])
    case Register(a) => r.(attestations := r.attestations[a.attestationKey := a])
    case Revoke(key, reason) => r.(revoked := r.revoked[key := reason])
    case _ => r
  }

  /** The claim moves to `next` under a fresh version. */
  function Enter(l: Lifecycle, k: Key, next: ClaimState): Lifecycle
    requires k in l.claims && l.claims[k].stateVersion < U32_MAX
  {
    var c := l.claims[k];
    l.(claims := l.claims[k := c.(state := next, stateVersion := c.stateVersion + 1)],
    log := l.log + [Transitioned(k, c.state, next, c.stateVersion + 1)])
  }

  predicate CanEnter(l: Lifecycle, k: Key) {
    k in l.claims && l.claims[k].stateVersion < U32_MAX
  }

  function ApplyLifecycle(l: Lifecycle, m: Move): Lifecycle {
    match m
    case SetRole(role, actor, enabled) => l.(roles := l.roles[(role, actor) := enabled])
    case Create(claim) => l.(claims := l.claims[claim.claimKey := claim], log := l.log + [Created(claim.claimKey)])
    case Confirm(k, evidence, expiresAt) =>
      if CanEnter(l, k) then
        var c := l.claims[k];
        l.(claims := l.claims[k := c.(state := Controlled, stateVersion := c.stateVersion + 1,
                                      evidenceHash := Some(evidence), controlExpiresAt := expiresAt)],
        log := l.log + [Confirmed(k)])
      else l
    case Advance(k, next) => if CanEnter(l, k) then Enter(l, k, next) else l
    case Suspend(k) =>
      if CanEnter(l, k) then
        var c := l.claims[k];
        l.(claims := l.claims[k := c.(state := Paused, stateVersion := c.stateVersion + 1,
                                      pausedFrom := c.state, hasPausedFrom := true)],
        log := l.log + [Transitioned(k, c.state, Paused, c.stateVersion + 1)])
      else l
    case Reinstate(k, target) =>
      if CanEnter(l, k) then
        var c := l.claims[k];
        l.(claims := l.claims[k := c.(state := target, stateVersion := c.stateVersion + 1, hasPausedFrom := false)],
        log := l.log + [Transitioned(k, Paused, target, c.stateVersion + 1)])
      else l
    case Issue(k, _, _) => if CanEnter(l, k) then Enter(l, k, ClaimState.Issued) else l
    case CloseOut(k) => if CanEnter(l, k) then Enter(l, k, Closed) else l
    case Redeem(k, _, _, finishes) => if finishes && CanEnter(l, k) then Enter(l, k, Redeemed) else l
    case _ => l
  }

  function ApplyController(c: Controller, m: Move): Controller {
    match m
    case SetPauser(pauser, enabled) => c.(pausers := c.pausers[pauser := enabled])
    case SetGlobalPause(paused) => c.(globalPause := paused)
    case Authorize(holder, enabled) => c.(frozen := c.frozen[holder := !enabled])
    case Issue(k, h, amount) =>
      if 0 < amount <= I128_MAX then
        c.(issued := c.issued[k := amount], holder := c.holder[k := h], log := c.log + [AssetIssued(k, h, amount)])
      else c
    case Redeem(k, h, amount, _) =>
      if 0 < amount <= c.Outstanding(k) then
        c.(issued := c.issued[k := c.Outstanding(k) - amount], log := c.log + [AssetRedeemed(k, h, amount)])
      else c
    case Sweep(h, amount) => c.(log := c.log + [AssetClawedBack(h, amount)])
    case ClawbackClaim(k, h, amount) =>
      if 0 < amount <= c.Outstanding(k) then
        c.(issued := c.issued[k := c.Outstanding(k) - amount],
        log := c.log + [ClaimAssetClawedBack(k, h, amount, c.Outstanding(k) - amount)])
      else c
    case _ => c
  }

  function Credit(t: Token, a: Address, amount: nat): Token {
    t.(balances := t.balances[a := t.Balance(a) + amount])
  }

  function Debit(t: Token, a: Address, amount: int): Token {
    if 0 <= amount <= t.Balance(a) then t.(balances := t.balances[a := t.Balance(a) - amount]) else t
  }

  function ApplyToken(t: Token, m: Move): Token {
    match m
    case Authorize(h, enabled) =>
      t.(deauthorized := if enabled then t.deauthorized - {h} else t.deauthorized + {h})
    case Issue(_, h, amount) => if amount > 0 then Credit(t, h, amount) else t
    case Redeem(_, h, amount, _) => Debit(t, h, amount)
    case Sweep(h, amount) => Debit(t, h, amount)
    case ClawbackClaim(_, h, amount) => Debit(t, h, amount)
    case Transfer(sender, recipient, amount) =>
      if 0 <= amount <= t.Balance(sender) then Credit(Debit(t, sender, amount), recipient, amount) else t
    case HolderBurn(h, amount) => Debit(t, h, amount)
    case _ => t
  }

  function Apply(w: World, m: Move): World {
    World(ApplyRegistry(w.registry, m), ApplyLifecycle(w.lifecycle, m), ApplyController(w.controller, m),
          ApplyToken(w.token, m), if m.Tick? then m.at else w.now)
  }

  /** The ledger after an entrypoint whose guards answered `plan`: a failure reverts all three contracts. */
  function After(w: World, plan: Result<Move>): World {
    if plan.Ok? then Apply(w, plan.value) else w
  }

  /** The claim graph without pauses, as the contract lists it. */
  predicate Edge(s: ClaimState, t: ClaimState) {
    || (s.Controlled? && t.Issued?) || (s.Issued? && t.Funded?)
    || (s.Funded? && t.Settling?) || (s.Settling? && (t.Repaid? || t.Shortfall?))
    || (s.Repaid? && t.Redeemed?) || (s.Redeemed? && t.Closed?)
    || (s.Shortfall? && t.Resolution?) || (s.Resolution? && (t.Closed? || t.ClosedWithLoss?))
  }

  /** The edges a holder of the Issuer role may take. */
  predicate IssuerEdge(s: ClaimState, t: ClaimState) {
    (s.Controlled? && t.Issued?) || (s.Repaid? && t.Redeemed?) || (s.Redeemed? && t.Closed?)
  }
}
