/** The asset controller: jCLAIM issuance, redemption, clawback and claim closing. */
module AssetController {
  import opened Options
  import opened Common
  import opened Ledger
  import opened ClaimLifecycle
  import opened EligibilityRegistry

  // The asset contract's own refusals. `host` is false when it refuses for a reason
  // outside this model (a missing trustline, an account limit).

  predicate MintAccepted(t: Token, host: bool, to: Address, amount: int) {
    host && to !in t.deauthorized && t.Balance(to) + amount <= I128_MAX
  }

  predicate BurnAccepted(t: Token, host: bool, from: Address, amount: int) {
    host && from !in t.deauthorized && 0 <= amount <= t.Balance(from)
  }

  predicate ClawbackAccepted(t: Token, host: bool, from: Address, amount: int) {
    host && 0 <= amount <= t.Balance(from)
  }

  predicate TransferAccepted(t: Token, host: bool, sender: Address, recipient: Address, amount: int) {
    && BurnAccepted(t, host, sender, amount)
    && recipient !in t.deauthorized && t.Balance(recipient) + amount <= I128_MAX
  }

  function Completed(accepted: bool): Check {
    if accepted then Pass else Abort
  }

  function PlanSetPauser(c: Controller, signers: set<Address>, admin: Address, pauser: Address,
      enabled: bool): Result<Move> {
    var authorized := NeedAuth(signers, admin);
    :- authorized;
    :- Need(c.admin == admin, Forbidden);
    Ok(SetPauser(pauser, enabled))
  }

  function PlanSetGlobalPause(c: Controller, signers: set<Address>, pauser: Address, paused: bool): Result<Move> {
    var authorized := NeedAuth(signers, pauser);
    :- authorized;
    :- Need(Flag(c.pausers, pauser), Forbidden);
    Ok(SetGlobalPause(paused))
  }

  function NeedOperator(c: Controller, signers: set<Address>, actor: Address): Check {
    if actor !in signers then Abort else Need(c.operator == actor, Forbidden)
  }

  function PlanAuthorizeHolder(c: Controller, signers: set<Address>, host: bool, operator: Address, holder: Address,
      enabled: bool): Result<Move> {
    var authorized := NeedOperator(c, signers, operator);
    :- authorized;
    :- Need(!c.globalPause, CircuitBreakerActive);
    :- Completed(host);
    Ok(Authorize(holder, enabled))
  }

  function PlanFreeze(c: Controller, signers: set<Address>, host: bool, actor: Address, holder: Address): Result<Move> {
    var authorized := NeedAuth(signers, actor);
    :- authorized;
    :- Need(actor == c.operator || Flag(c.pausers, actor), Forbidden);
    :- Completed(host);
    Ok(Authorize(holder, false))
  }

  /** Everything `issue` checks itself, in its own order, up to and including the mint. */
  function IssueGuards(w: World, signers: set<Address>, host: bool, operator: Address, k: Key, h: Address,
      amount: I128): Check {
    var c := w.controller;
    if operator !in signers then Abort
    else if c.operator != operator then Fail(Forbidden)
    else if c.globalPause then Fail(CircuitBreakerActive)
    else if amount <= 0 then Fail(AmountNotPositive)
    else if c.Outstanding(k) != 0 then Fail(ContractError.Replay)
    else if Flag(c.frozen, h) then Fail(HolderNotAuthorized)
    else if k !in w.lifecycle.claims then Abort
    else
      var claim := w.lifecycle.claims[k];
      if claim.state != Controlled || claim.controlExpiresAt <= w.now then Fail(ControlNotVerified)
      else if !w.registry.Active(claim.attestationKey, w.now) then Fail(ContractError.AttestationExpired)
      else if amount > claim.approvedPrincipal then Fail(ValidationFailed)
      else Completed(MintAccepted(w.token, host, h, amount))
  }

  function PlanIssue(w: World, signers: set<Address>, host: bool, operator: Address, k: Key, h: Address,
      amount: I128): Result<Move> {
    var guards := IssueGuards(w, signers, host, operator, k, h, amount);
    :- guards;
    :- Completed(CanAdvance(w.lifecycle, w.now, signers, operator, k));
    Ok(Issue(k, h, amount))
  }

  /** The nested Controlled to Issued transition succeeds. */
  predicate CanAdvance(l: Lifecycle, now: U64, signers: set<Address>, operator: Address, k: Key) {
    PlanTransition(l, now, signers, operator, k, Controlled, ClaimState.Issued).Ok?
  }

  function PlanRedeem(w: World, signers: set<Address>, host: bool, operator: Address, k: Key, h: Address,
      amount: I128): Result<Move> {
    var c := w.controller;
    :- NeedOperator(c, signers, operator);
    :- NeedAuth(signers, h);
    :- NeedPositive(amount);
    :- Need(amount <= c.Outstanding(k) && Lookup(c.holder, k) == Some(h), ValidationFailed);
    PlanSettle(w, signers, host, operator, k, h, amount)
  }

  /** The burn and, for the last token of a repaid claim, the nested Repaid to Redeemed transition. */
  function PlanSettle(w: World, signers: set<Address>, host: bool, operator: Address, k: Key, h: Address,
      amount: I128): Result<Move> {
    var remaining := w.controller.Outstanding(k) - amount;
    :- Completed(BurnAccepted(w.token, host, h, amount));
    :- Completed(CanSettle(w.lifecycle, w.now, signers, operator, k, remaining));
    Ok(Redeem(k, h, amount, Finishes(w.lifecycle, k, remaining)))
  }

  predicate Finishes(l: Lifecycle, k: Key, remaining: int) {
    remaining == 0 && k in l.claims && l.claims[k].state == Repaid
  }

  /** The claim is there, and if it is to finish its transition succeeds. */
  predicate CanSettle(l: Lifecycle, now: U64, signers: set<Address>, operator: Address, k: Key, remaining: int) {
    k in l.claims && (Finishes(l, k, remaining) ==> PlanTransition(l, now, signers, operator, k, Repaid, Redeemed).Ok?)
  }

  function PlanClawback(w: World, signers: set<Address>, host: bool, operator: Address, h: Address,
      amount: I128): Result<Move> {
    var authorized := NeedOperator(w.controller, signers, operator);
    :- authorized;
    :- NeedPositive(amount);
    :- Completed(ClawbackAccepted(w.token, host, h, amount));
    Ok(Sweep(h, amount))
  }

  function PlanClawbackClaim(w: World, signers: set<Address>, host: bool, operator: Address, k: Key, h: Address,
      amount: I128): Result<Move> {
    var c := w.controller;
    :- NeedOperator(c, signers, operator);
    :- NeedPositive(amount);
    :- Need(amount <= c.Outstanding(k) && Lookup(c.holder, k) == Some(h), ValidationFailed);
    :- Completed(ClawbackAccepted(w.token, host, h, amount));
    Ok(ClawbackClaim(k, h, amount))
  }

  function PlanClose(w: World, signers: set<Address>, operator: Address, k: Key): Result<Move> {
    var authorized := NeedOperator(w.controller, signers, operator);
    :- authorized;
    :- Need(w.controller.Outstanding(k) == 0, ValidationFailed);
    :- Completed(PlanTransition(w.lifecycle, w.now, signers, operator, k, Redeemed, Closed).Ok?);
    Ok(CloseOut(k))
  }

  /** The jCLAIM asset contract as the controller calls it. */
  class StellarAsset {
    var balances: map<Address, nat>
    var deauthorized: set<Address>

    function State(): Token
      reads this
    {
      Token(balances, deauthorized)
    }

    constructor ()
      ensures State() == Token(map[], {})
    {
      balances, deauthorized := map[], {};
    }

    method SetAuthorized(host: bool, h: Address, enabled: bool) returns (ok: bool)
      modifies this
      ensures ok == host
      ensures State() == if ok then ApplyToken(old(State()), Authorize(h, enabled)) else old(State())
    {
      if !host { return false; }
      deauthorized := if enabled then deauthorized - {h} else deauthorized + {h};
      return true;
    }

    method Mint(host: bool, to: Address, amount: int) returns (ok: bool)
      requires amount > 0
      modifies this
      ensures ok == MintAccepted(old(State()), host, to, amount)
      ensures State() == if ok then Credit(old(State()), to, amount) else old(State())
    {
      if !MintAccepted(State(), host, to, amount) { return false; }
      balances := balances[to := State().Balance(to) + amount];
      return true;
    }

    method Burn(host: bool, from: Address, amount: int) returns (ok: bool)
      modifies this
      ensures ok == BurnAccepted(old(State()), host, from, amount)
      ensures State() == if ok then Debit(old(State()), from, amount) else old(State())
    {
      if !BurnAccepted(State(), host, from, amount) { return false; }
      balances := balances[from := State().Balance(from) - amount];
      return true;
    }

    method Clawback(host: bool, from: Address, amount: int) returns (ok: bool)
      modifies this
      ensures ok == ClawbackAccepted(old(State()), host, from, amount)
      ensures State() == if ok then Debit(old(State()), from, amount) else old(State())
    {
      if !ClawbackAccepted(State(), host, from, amount) { return false; }
      balances := balances[from := State().Balance(from) - amount];
      return true;
    }
  }

  class AssetController {
    const admin: Address
    const operator: Address
    const sac: StellarAsset
    const lifecycle: ClaimLifecycle
    var pausers: map<Address, bool>
    var issued: map<Key, I128>
    var holder: map<Key, Address>
    var frozen: map<Address, bool>
    var globalPause: bool
    var log: seq<AssetEvent>

    function State(): Controller
      reads this
    {
      Controller(admin, operator, pausers, issued, holder, frozen, globalPause, log)
    }

    /** All three contracts and the asset at ledger time `now`. */
    function Ledger(now: U64): World
      reads this, sac, lifecycle, lifecycle.registry
    {
      World(lifecycle.registry.State(), lifecycle.State(), State(), sac.State(), now)
    }

    constructor (admin: Address, sac: StellarAsset, lifecycle: ClaimLifecycle, operator: Address)
      ensures State() == Controller(admin, operator, map[], map[], map[], map[], false, [])
      ensures this.sac == sac && this.lifecycle == lifecycle
    {
      this.admin, this.sac, this.lifecycle, this.operator := admin, sac, lifecycle, operator;
      pausers, issued, holder, frozen, globalPause, log := map[], map[], map[], map[], false, [];
    }

    /** The host reverts what an aborted entrypoint has written so far. */
    method Revert(c: Controller, t: Token)
      requires c.admin == admin && c.operator == operator
      modifies this, sac
      ensures State() == c && sac.State() == t
    {
      pausers, issued, holder, frozen := c.pausers, c.issued, c.holder, c.frozen;
      globalPause, log := c.globalPause, c.log;
      sac.balances, sac.deauthorized := t.balances, t.deauthorized;
    }

    function GetIssuedForClaim(k: Key): I128
      reads this
    {
      State().Outstanding(k)
    }

    method AuthorizeHolder(now: U64, signers: set<Address>, host: bool, actor: Address, h: Address, enabled: bool)
      returns (r: Result<()>)
      modifies this, sac
      ensures var plan := PlanAuthorizeHolder(old(State()), signers, host, actor, h, enabled);
              Answers(plan, r) && Ledger(now) == After(old(Ledger(now)), plan)
    {
      if actor !in signers { return Trap; }
      if operator != actor { return Err(Forbidden); }
      if globalPause { return Err(CircuitBreakerActive); }
      var ok := sac.SetAuthorized(host, h, enabled);
      if !ok { return Trap; }
      frozen := frozen[h := !enabled];
      return Ok(());
    }

    method Freeze(now: U64, signers: set<Address>, host: bool, actor: Address, h: Address) returns (r: Result<()>)
      modifies this, sac
      ensures var plan := PlanFreeze(old(State()), signers, host, actor, h);
              Answers(plan, r) && Ledger(now) == After(old(Ledger(now)), plan)
    {
      if actor !in signers { return Trap; }
      if actor != operator && !Flag(pausers, actor) { return Err(Forbidden); }
      var ok := sac.SetAuthorized(host, h, false);
      if !ok { return Trap; }
      frozen := frozen[h := true];
      return Ok(());
    }

    method Issue(now: U64, signers: set<Address>, host: bool, actor: Address, k: Key, h: Address, amount: I128)
      returns (r: Result<I128>)
      modifies this, sac, lifecycle
      ensures var plan := PlanIssue(old(Ledger(now)), signers, host, actor, k, h, amount);
              Answers(plan, r) && Ledger(now) == After(old(Ledger(now)), plan)
      ensures r.Ok? ==> r.value == amount
    {
      if actor !in signers { return Trap; }
      if operator != actor { return Err(Forbidden); }
      if globalPause { return Err(CircuitBreakerActive); }
      if amount <= 0 { return Err(AmountNotPositive); }
      var outstanding := GetIssuedForClaim(k);
      if outstanding != 0 { return Err(ContractError.Replay); }
      if Flag(frozen, h) { return Err(HolderNotAuthorized); }
      var claim := lifecycle.GetClaim(k);
      if !claim.Ok? { return Trap; }
      if claim.value.state != Controlled || claim.value.controlExpiresAt <= now { return Err(ControlNotVerified); }
      var active := lifecycle.AttestationActive(k, now);
      if !active.Ok? { return Trap; }
      if !active.value { return Err(ContractError.AttestationExpired); }
      if amount > claim.value.approvedPrincipal { return Err(ValidationFailed); }

      r := MintAndAdvance(now, signers, host, actor, k, h, amount);
    }

    /** The writing half of `issue`: mint, record, then the nested transition, undone as a whole if that fails. */
    method MintAndAdvance(now: U64, signers: set<Address>, host: bool, actor: Address, k: Key, h: Address, amount: I128)
      returns (r: Result<I128>)
      requires amount > 0
      modifies this, sac, lifecycle
      ensures var w := old(Ledger(now));
              if MintAccepted(w.token, host, h, amount) && CanAdvance(w.lifecycle, now, signers, actor, k)
              then r == Ok(amount) && Ledger(now) == Apply(w, Move.Issue(k, h, amount))
              else r == Trap && Ledger(now) == w
    {
      var controllerBefore, tokenBefore := State(), sac.State();
      var minted := sac.Mint(host, h, amount);
      if !minted { return Trap; }
      issued := issued[k := amount];
      holder := holder[k := h];
      var moved := lifecycle.Transition(now, signers, actor, k, Controlled, ClaimState.Issued);
      if !moved.Ok? {
        Revert(controllerBefore, tokenBefore);
        return Trap;
      }
      log := log + [AssetIssued(k, h, amount)];
      return Ok(amount);
    }

    method Redeem(now: U64, signers: set<Address>, host: bool, actor: Address, k: Key, h: Address, amount: I128)
      returns (r: Result<I128>)
      modifies this, sac, lifecycle
      ensures var plan := PlanRedeem(old(Ledger(now)), signers, host, actor, k, h, amount);
              Answers(plan, r) && Ledger(now) == After(old(Ledger(now)), plan)
      ensures r.Ok? ==> r.value == State().Outstanding(k)
    {
      if actor !in signers { return Trap; }
      if operator != actor { return Err(Forbidden); }
      if h !in signers { return Trap; }
      if amount <= 0 { return Err(AmountNotPositive); }
      var outstanding := GetIssuedForClaim(k);
      if amount > outstanding || Lookup(holder, k) != Some(h) { return Err(ValidationFailed); }

      r := BurnAndSettle(now, signers, host, actor, k, h, amount);
    }

    /** The writing half of `redeem`: burn, record, and finish a repaid claim, undone as a whole if the finish fails. */
    method BurnAndSettle(now: U64, signers: set<Address>, host: bool, actor: Address, k: Key, h: Address, amount: I128)
      returns (r: Result<I128>)
      requires 0 < amount <= GetIssuedForClaim(k)
      modifies this, sac, lifecycle
      ensures var plan := PlanSettle(old(Ledger(now)), signers, host, actor, k, h, amount);
              Answers(plan, r) && Ledger(now) == After(old(Ledger(now)), plan)
      ensures r.Ok? ==> r.value == State().Outstanding(k)
    {
      ghost var w, plan := Ledger(now), PlanSettle(Ledger(now), signers, host, actor, k, h, amount);
      var controllerBefore, tokenBefore := State(), sac.State();
      var outstanding := GetIssuedForClaim(k);
      var burned := sac.Burn(host, h, amount);
      if !burned {
        assert plan.Trap?;
        return Trap;
      }
      var remaining := outstanding - amount;
      issued := issued[k := remaining];
      var settled := FinishIfRepaid(now, signers, actor, k, remaining);
      if !settled {
        assert plan.Trap?;
        Revert(controllerBefore, tokenBefore);
        return Trap;
      }
      assert plan == Ok(Move.Redeem(k, h, amount, Finishes(w.lifecycle, k, remaining)));
      log := log + [AssetRedeemed(k, h, amount)];
      return Ok(remaining);
    }

    /** The nested transition after the last token of a repaid claim. */
    method FinishIfRepaid(now: U64, signers: set<Address>, actor: Address, k: Key, remaining: int) returns (ok: bool)
      modifies lifecycle
      ensures var l := old(lifecycle.State());
              && ok == CanSettle(l, now, signers, actor, k, remaining)
              && (ok && Finishes(l, k, remaining) ==> CanEnter(l, k))
              && lifecycle.State() == if ok && Finishes(l, k, remaining) then Enter(l, k, Redeemed) else l
    {
      var claim := lifecycle.GetClaim(k);
      if !claim.Ok? { return false; }
      if remaining == 0 && claim.value.state == Repaid {
        var moved := lifecycle.Transition(now, signers, actor, k, Repaid, Redeemed);
        return moved.Ok?;
      }
      return true;
    }

    method Clawback(now: U64, signers: set<Address>, host: bool, actor: Address, h: Address, amount: I128)
      returns (r: Result<()>)
      modifies this, sac
      ensures var plan := PlanClawback(old(Ledger(now)), signers, host, actor, h, amount);
              Answers(plan, r) && Ledger(now) == After(old(Ledger(now)), plan)
    {
      if actor !in signers { return Trap; }
      if operator != actor { return Err(Forbidden); }
      if amount <= 0 { return Err(AmountNotPositive); }
      var ok := sac.Clawback(host, h, amount);
      if !ok { return Trap; }
      log := log + [AssetClawedBack(h, amount)];
      return Ok(());
    }

    method ClawbackClaim(now: U64, signers: set<Address>, host: bool, actor: Address, k: Key, h: Address, amount: I128)
      returns (r: Result<I128>)
      modifies this, sac
      ensures var plan := PlanClawbackClaim(old(Ledger(now)), signers, host, actor, k, h, amount);
              Answers(plan, r) && Ledger(now) == After(old(Ledger(now)), plan)
      ensures r.Ok? ==> r.value == State().Outstanding(k)
    {
      if actor !in signers { return Trap; }
      if operator != actor { return Err(Forbidden); }
      if amount <= 0 { return Err(AmountNotPositive); }
      var outstanding := GetIssuedForClaim(k);
      if amount > outstanding || Lookup(holder, k) != Some(h) { return Err(ValidationFailed); }
      var ok := sac.Clawback(host, h, amount);
      if !ok { return Trap; }
      var remaining := outstanding - amount;
      issued := issued[k := remaining];
      log := log + [ClaimAssetClawedBack(k, h, amount, remaining)];
      return Ok(remaining);
    }

    method CloseClaim(now: U64, signers: set<Address>, actor: Address, k: Key) returns (r: Result<()>)
      modifies lifecycle
      ensures var plan := PlanClose(old(Ledger(now)), signers, actor, k);
              Answers(plan, r) && Ledger(now) == After(old(Ledger(now)), plan)
    {
      if actor !in signers { return Trap; }
      if operator != actor { return Err(Forbidden); }
      if GetIssuedForClaim(k) != 0 { return Err(ValidationFailed); }
      var moved := lifecycle.Transition(now, signers, actor, k, Redeemed, Closed);
      if !moved.Ok? { return Trap; }
      return Ok(());
    }
  }
}
