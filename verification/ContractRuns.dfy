/** Every way the composed ledger can move, one transaction at a time, and whole runs of it. */
module ContractRuns {
  import opened Options
  import opened Common
  import opened Ledger
  import E = EligibilityRegistry
  import L = ClaimLifecycle
  import A = AssetController

  datatype Call =
    | SetOracle(admin: Address, oracle: Address, enabled: bool)
    | RegisterAttestation(oracle: Address, attestation: Attestation)
    | RevokeAttestation(actor: Address, key: Key, reason: Symbol)
    | SetRole(admin: Address, role: Role, actor: Address, enabled: bool)
    | CreateClaim(originator: Address, terms: L.ClaimTerms)
    | ConfirmControl(actor: Address, k: Key, evidence: Key, expiresAt: U64)
    | Transition(actor: Address, k: Key, expected: ClaimState, next: ClaimState)
    | Pause(pauser: Address, k: Key)
    | Resume(admin: Address, k: Key, target: ClaimState)
    | SetPauser(admin: Address, pauser: Address, enabled: bool)
    | SetGlobalPause(pauser: Address, paused: bool)
    | AuthorizeHolder(operator: Address, holder: Address, enabled: bool)
    | Freeze(actor: Address, holder: Address)
    | Issue(operator: Address, k: Key, holder: Address, amount: I128)
    | Redeem(operator: Address, k: Key, holder: Address, amount: I128)
    | Clawback(operator: Address, holder: Address, amount: I128)
    | ClawbackClaim(operator: Address, k: Key, holder: Address, amount: I128)
    | CloseClaim(operator: Address, k: Key)
    | Transfer(spender: Address, sender: Address, recipient: Address, amount: I128)
    | BurnHeld(spender: Address, holder: Address, amount: I128)
    | Tick(at: U64)

  /** A transaction: who signed it, and whether the asset contract accepts its token call. Transfers and burns are
      the holder's own or those of a spender whose allowance the asset contract accepts. */
  datatype Invocation = Invocation(signers: set<Address>, host: bool, call: Call)

  function Plan(w: World, i: Invocation): Result<Move> {
    match i.call
    case SetOracle(admin, oracle, enabled) => E.PlanSetOracle(w.registry, i.signers, admin, oracle, enabled)
    case RegisterAttestation(oracle, a) => E.PlanRegister(w.registry, w.now, i.signers, oracle, a)
    case RevokeAttestation(actor, key, reason) => E.PlanRevoke(w.registry, i.signers, actor, key, reason)
    case SetRole(admin, role, actor, enabled) => L.PlanSetRole(w.lifecycle, i.signers, admin, role, actor, enabled)
    case CreateClaim(originator, terms) => L.PlanCreate(w.lifecycle, w.registry, w.now, i.signers, originator, terms)
    case ConfirmControl(actor, k, evidence, expiresAt) =>
      L.PlanConfirm(w.lifecycle, w.now, i.signers, actor, k, evidence, expiresAt)
    case Transition(actor, k, expected, next) =>
      L.PlanTransition(w.lifecycle, w.now, i.signers, actor, k, expected, next)
    case Pause(pauser, k) => L.PlanPause(w.lifecycle, i.signers, pauser, k)
    case Resume(admin, k, target) => L.PlanResume(w.lifecycle, i.signers, admin, k, target)
    case SetPauser(admin, pauser, enabled) => A.PlanSetPauser(w.controller, i.signers, admin, pauser, enabled)
    case SetGlobalPause(pauser, paused) => A.PlanSetGlobalPause(w.controller, i.signers, pauser, paused)
    case AuthorizeHolder(operator, h, enabled) =>
      A.PlanAuthorizeHolder(w.controller, i.signers, i.host, operator, h, enabled)
    case Freeze(actor, h) => A.PlanFreeze(w.controller, i.signers, i.host, actor, h)
    case Issue(operator, k, h, amount) => A.PlanIssue(w, i.signers, i.host, operator, k, h, amount)
    case Redeem(operator, k, h, amount) => A.PlanRedeem(w, i.signers, i.host, operator, k, h, amount)
    case Clawback(operator, h, amount) => A.PlanClawback(w, i.signers, i.host, operator, h, amount)
    case ClawbackClaim(operator, k, h, amount) => A.PlanClawbackClaim(w, i.signers, i.host, operator, k, h, amount)
    case CloseClaim(operator, k) => A.PlanClose(w, i.signers, operator, k)
    case Transfer(spender, sender, recipient, amount) =>
      if spender in i.signers && A.TransferAccepted(w.token, i.host, sender, recipient, amount)
      then Ok(Move.Transfer(sender, recipient, amount)) else Trap
    case BurnHeld(spender, h, amount) =>
      if spender in i.signers && A.BurnAccepted(w.token, i.host, h, amount) then Ok(HolderBurn(h, amount)) else Trap
    case Tick(at) => if w.now <= at then Ok(Move.Tick(at)) else Trap
  }

  function Step(w: World, i: Invocation): World {
    After(w, Plan(w, i))
  }

  function Run(w: World, calls: seq<Invocation>): World {
    if calls == [] then w else Step(Run(w, calls[..|calls| - 1]), calls[|calls| - 1])
  }

  lemma RunAppend(w: World, calls: seq<Invocation>, i: Invocation)
    ensures Run(w, calls + [i]) == Step(Run(w, calls), i)
  {
    assert (calls + [i])[..|calls|] == calls;
  }

  lemma {:induction false} RunConcat(w: World, a: seq<Invocation>, b: seq<Invocation>)
    ensures Run(w, a + b) == Run(Run(w, a), b)
  {
    if b == [] {
      assert a + b == a;
    } else {
      RunConcat(w, a, b[..|b| - 1]);
      assert a + b == a + b[..|b| - 1] + [b[|b| - 1]];
      RunAppend(w, a + b[..|b| - 1], b[|b| - 1]);
    }
  }

  lemma RunFour(w: World, a: Invocation, b: Invocation, c: Invocation, d: Invocation)
    ensures Run(w, [a, b, c, d]) == Step(Step(Step(Step(w, a), b), c), d)
  {
    assert [a, b, c, d] == [a] + [b] + [c] + [d] && [] + [a] == [a];
    RunAppend(w, [], a);
    RunAppend(w, [a], b);
    RunAppend(w, [a] + [b], c);
    RunAppend(w, [a] + [b] + [c], d);
  }

  /** Freshly initialized and wired contracts: nothing registered, claimed, issued or minted yet. */
  predicate Genesis(w: World) {
    && w.registry.attestations == map[] && w.registry.revoked == map[]
    && w.lifecycle.claims == map[] && w.lifecycle.log == []
    && w.controller.issued == map[] && w.controller.holder == map[] && w.controller.log == []
    && w.token.balances == map[]
  }

  /** What every planned move is known to satisfy, whoever asked for it. */
  predicate Legal(w: World, m: Move) {
    var l, c := w.lifecycle, w.controller;
    match m
    case Register(a) => a.attestationKey !in w.registry.attestations && w.now < a.expiresAt
    case Revoke(key, _) => key in w.registry.attestations && key !in w.registry.revoked
    case Create(claim) =>
      && claim.claimKey !in l.claims && w.registry.Active(claim.attestationKey, w.now)
      && w.registry.attestations[claim.attestationKey].claimKey == claim.claimKey
      && claim.state.Eligible? && claim.stateVersion == 1 && !claim.hasPausedFrom && claim.approvedPrincipal > 0
    case Confirm(k, _, expiresAt) => CanEnter(l, k) && l.claims[k].state.Eligible? && w.now < expiresAt
    case Advance(k, next) => CanEnter(l, k) && Edge(l.claims[k].state, next)
    case Suspend(k) => CanEnter(l, k) && !l.claims[k].state.Terminal() && !l.claims[k].state.Paused?
    case Reinstate(k, target) =>
      && CanEnter(l, k) && l.claims[k].state.Paused? && l.claims[k].hasPausedFrom
      && (l.claims[k].pausedFrom == target || (l.claims[k].pausedFrom.Issued? && target.Controlled?))
    case Issue(k, h, amount) =>
      && CanEnter(l, k) && l.claims[k].state.Controlled? && w.now < l.claims[k].controlExpiresAt
      && w.registry.Active(l.claims[k].attestationKey, w.now)
      && c.Outstanding(k) == 0 && 0 < amount <= l.claims[k].approvedPrincipal && !Flag(c.frozen, h)
      && w.token.Balance(h) + amount <= I128_MAX
    case Redeem(k, h, amount, finishes) =>
      && 0 < amount <= c.Outstanding(k) && Lookup(c.holder, k) == Some(h) && amount <= w.token.Balance(h)
      && k in l.claims && finishes == (amount == c.Outstanding(k) && l.claims[k].state.Repaid?)
      && (finishes ==> CanEnter(l, k))
    case Sweep(h, amount) => 0 < amount <= w.token.Balance(h)
    case ClawbackClaim(k, h, amount) =>
      0 < amount <= c.Outstanding(k) && Lookup(c.holder, k) == Some(h) && amount <= w.token.Balance(h)
    case CloseOut(k) => CanEnter(l, k) && l.claims[k].state.Redeemed? && c.Outstanding(k) == 0
    case Transfer(sender, _, amount) => 0 <= amount <= w.token.Balance(sender)
    case HolderBurn(h, amount) => 0 <= amount <= w.token.Balance(h)
    case Tick(at) => w.now <= at
    case _ => true
  }

  /** The role that may leave a state. */
  function RoleLeaving(s: ClaimState): Role {
    match s
    case Issued => Facility
    case Funded => Servicer
    case Settling => Servicer
    case Shortfall => Resolver
    case Resolution => Resolver
    case _ => Issuer
  }

  /** `validate_transition` accepts exactly the edges of the graph, for holders of the one role that may leave the
      state, and lets a claim be issued only while its control evidence is unexpired. */
  lemma ValidTransitionIff(l: Lifecycle, now: U64, actor: Address, c: Claim, next: ClaimState)
    ensures L.ValidTransition(l, now, actor, c, next) <==>
              && Edge(c.state, next) && l.HasRole(RoleLeaving(c.state), actor)
              && (next.Issued? ==> now < c.controlExpiresAt)
  {
  }

  lemma PlannedMovesAreLegal(w: World, i: Invocation)
    requires Plan(w, i).Ok?
    ensures Legal(w, Plan(w, i).value)
  {
    match i.call
    case CreateClaim(_, _) => LifecycleMovesAreLegal(w, i);
    case ConfirmControl(_, _, _, _) => LifecycleMovesAreLegal(w, i);
    case Transition(_, _, _, _) => LifecycleMovesAreLegal(w, i);
    case Pause(_, _) => LifecycleMovesAreLegal(w, i);
    case Resume(_, _, _) => LifecycleMovesAreLegal(w, i);
    case Issue(_, _, _, _) => IssueIsLegal(w, i);
    case Redeem(_, _, _, _) => RedeemIsLegal(w, i);
    case Clawback(_, _, _) => RemovalsAreLegal(w, i);
    case ClawbackClaim(_, _, _, _) => RemovalsAreLegal(w, i);
    case CloseClaim(_, _) => RemovalsAreLegal(w, i);
    case _ =>
  }

  lemma RemovalsAreLegal(w: World, i: Invocation)
    requires i.call.Clawback? || i.call.ClawbackClaim? || i.call.CloseClaim?
    requires Plan(w, i).Ok?
    ensures Legal(w, Plan(w, i).value)
  {
  }

  lemma LifecycleMovesAreLegal(w: World, i: Invocation)
    requires i.call.CreateClaim? || i.call.ConfirmControl? || i.call.Transition? || i.call.Pause? || i.call.Resume?
    requires Plan(w, i).Ok?
    ensures Legal(w, Plan(w, i).value)
  {
    if i.call.Transition? {
      ValidTransitionIff(w.lifecycle, w.now, i.call.actor, w.lifecycle.claims[i.call.k], i.call.next);
    }
  }

  lemma IssueIsLegal(w: World, i: Invocation)
    requires i.call.Issue? && Plan(w, i).Ok?
    ensures Legal(w, Plan(w, i).value)
  {
  }

  lemma RedeemIsLegal(w: World, i: Invocation)
    requires i.call.Redeem? && Plan(w, i).Ok?
    ensures Legal(w, Plan(w, i).value)
  {
  }

  /** The last step of a run, if it succeeded, was a legal move. */
  lemma LastStep(w: World, calls: seq<Invocation>)
    requires calls != []
    ensures var before, plan := Run(w, calls[..|calls| - 1]), Plan(Run(w, calls[..|calls| - 1]), calls[|calls| - 1]);
            && Run(w, calls) == After(before, plan)
            && (plan.Ok? ==> Legal(before, plan.value))
  {
    var before, last := Run(w, calls[..|calls| - 1]), calls[|calls| - 1];
    if Plan(before, last).Ok? { PlannedMovesAreLegal(before, last); }
  }
}
