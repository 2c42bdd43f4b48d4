/** What the published claim events say about a claim, and how its version counts its steps. */
module ClaimHistory {
  import opened Options
  import opened Common
  import opened Ledger
  import opened ContractRuns

  /** A reader of the event stream keeps this much about one claim. */
  datatype Tally = Tally(
    state: Option<ClaimState>, origin: ClaimState, version: nat,
    forward: nat, issuances: nat, pauses: nat, resumes: nat, compensations: nat)

  const BLANK := Tally(None, Eligible, 0, 0, 0, 0, 0, 0)

  function Absorb(t: Tally, e: ClaimEvent): Tally {
    match e
    case Created(_) => t.(state := Some(Eligible), version := 1)
    case Confirmed(_) => t.(state := Some(Controlled), version := t.version + 1, forward := t.forward + 1)
    case Transitioned(_, previous, next, version) =>
      var moved := t.(state := Some(next), version := version);
      if next.Paused? then
        moved.(origin := previous, pauses := t.pauses + 1)
      else if previous.Paused? then
        moved.(resumes := t.resumes + 1,
        compensations := t.compensations + if t.origin.Issued? && next.Controlled? then 1 else 0)
      else
        moved.(forward := t.forward + 1,
        issuances := t.issuances + if previous.Controlled? && next.Issued? then 1 else 0)
  }

  function Recount(log: seq<ClaimEvent>, k: Key): Tally {
    if log == [] then BLANK
    else
      var before, e := Recount(log[..|log| - 1], k), log[|log| - 1];
      if e.claimKey == k then Absorb(before, e) else before
  }

  /** Distance from Eligible along the graph; both ways to Closed take seven steps. */
  function Rank(s: ClaimState): nat {
    match s
    case Eligible => 0
    case Controlled => 1
    case Issued => 2
    case Funded => 3
    case Settling => 4
    case Repaid => 5
    case Shortfall => 5
    case Redeemed => 6
    case Resolution => 6
    case Closed => 7
    case ClosedWithLoss => 7
    case Paused => 0
  }

  lemma EdgesRaiseRankByOne(s: ClaimState, t: ClaimState)
    requires Edge(s, t)
    ensures Rank(t) == Rank(s) + 1 && Rank(t) <= 7 && !s.Terminal() && !s.Paused? && !t.Paused? && Rank(s) >= 1
    ensures Rank(t) == 2 <==> s.Controlled?
  {
  }

  predicate PauseWellFormed(c: Claim) {
    && (c.state.Paused? <==> c.hasPausedFrom)
    && (c.state.Paused? ==> !c.pausedFrom.Paused? && !c.pausedFrom.Terminal())
  }

  function Bit(b: bool): nat { if b then 1 else 0 }

  /** The stored claim is the replayed one, and its version is its exact step count. */
  predicate Accounted(c: Claim, t: Tally) {
    var reached := Rank(c.Effective());
    && PauseWellFormed(c)
    && t.state == Some(c.state) && t.version == c.stateVersion
    && (c.state.Paused? ==> t.origin == c.pausedFrom)
    && c.stateVersion == 1 + reached + t.compensations + t.pauses + t.resumes
    && t.forward == reached + t.compensations
    && t.pauses == t.resumes + Bit(c.state.Paused?)
    && t.issuances == t.compensations + Bit(reached >= 2)
  }

  predicate History(l: Lifecycle, k: Key) {
    var t := Recount(l.log, k);
    if k in l.claims then Accounted(l.claims[k], t) else t == BLANK
  }

  lemma RecountAppend(log: seq<ClaimEvent>, e: ClaimEvent, k: Key)
    ensures Recount(log + [e], k) == if e.claimKey == k then Absorb(Recount(log, k), e) else Recount(log, k)
  {
    assert (log + [e])[..|log|] == log;
  }

  /** One event taken by one claim keeps the account. */
  lemma AccountedStep(l: Lifecycle, k: Key, next: ClaimState)
    requires k in l.claims && l.claims[k].stateVersion < U32_MAX && Edge(l.claims[k].state, next) && History(l, k)
    ensures History(Enter(l, k, next), k)
  {
    EdgesRaiseRankByOne(l.claims[k].state, next);
    RecountAppend(l.log, Transitioned(k, l.claims[k].state, next, l.claims[k].stateVersion + 1), k);
  }

  lemma PauseStep(w: World, m: Move)
    requires m.Suspend? || m.Reinstate?
    requires Legal(w, m) && History(w.lifecycle, m.k)
    ensures History(Apply(w, m).lifecycle, m.k)
  {
    var l, k := w.lifecycle, m.k;
    var next := if m.Suspend? then Paused else m.target;
    RecountAppend(l.log, Transitioned(k, l.claims[k].state, next, l.claims[k].stateVersion + 1), k);
  }

  /** The claim a move is about, if it is about one. */
  function Subject(m: Move): Option<Key> {
    match m
    case Create(claim) => Some(claim.claimKey)
    case Confirm(k, _, _) => Some(k)
    case Advance(k, _) => Some(k)
    case Suspend(k) => Some(k)
    case Reinstate(k, _) => Some(k)
    case Issue(k, _, _) => Some(k)
    case Redeem(k, _, _, _) => Some(k)
    case ClawbackClaim(k, _, _) => Some(k)
    case CloseOut(k) => Some(k)
    case _ => None
  }

  /** A step on one claim leaves every other claim, its issuance, its holder and its history alone. */
  lemma OtherClaimsUntouched(w: World, m: Move, k: Key)
    requires Subject(m) != Some(k)
    ensures Lookup(Apply(w, m).lifecycle.claims, k) == Lookup(w.lifecycle.claims, k)
    ensures Apply(w, m).controller.Outstanding(k) == w.controller.Outstanding(k)
    ensures Lookup(Apply(w, m).controller.holder, k) == Lookup(w.controller.holder, k)
    ensures Recount(Apply(w, m).lifecycle.log, k) == Recount(w.lifecycle.log, k)
  {
    var log, log' := w.lifecycle.log, Apply(w, m).lifecycle.log;
    if log' != log {
      var e := log'[|log|];
      assert log' == log + [e] && e.claimKey != k;
      RecountAppend(log, e, k);
    }
  }

  lemma HistoryStep(w: World, m: Move, k: Key)
    requires Legal(w, m) && History(w.lifecycle, k)
    ensures History(Apply(w, m).lifecycle, k)
  {
    var l := w.lifecycle;
    if Subject(m) != Some(k) {
      OtherClaimsUntouched(w, m, k);
    } else {
      match m
      case Create(claim) => RecountAppend(l.log, Created(k), k);
      case Confirm(_, _, _) => RecountAppend(l.log, Confirmed(k), k);
      case Advance(_, next) => AccountedStep(l, k, next);
      case Suspend(_) => PauseStep(w, m);
      case Reinstate(_, _) => PauseStep(w, m);
      case Issue(_, _, _) => AccountedStep(l, k, ClaimState.Issued);
      case Redeem(_, _, _, finishes) => if finishes { AccountedStep(l, k, Redeemed); }
      case ClawbackClaim(_, _, _) =>
      case CloseOut(_) => AccountedStep(l, k, Closed);
    }
  }

  /** In every run, for every claim: the event stream replays to the stored state and version,
      the version counts rank, compensations, pauses and resumes, forward steps are the rank plus the
      compensations, pauses lead resumes by one exactly while Paused, and issuances are one more than
      compensations exactly from Issued on. */
  lemma {:induction false} StepAccounting(w: World, calls: seq<Invocation>, k: Key)
    requires Genesis(w)
    ensures History(Run(w, calls).lifecycle, k)
  {
    if calls != [] {
      var before, last := Run(w, calls[..|calls| - 1]), calls[|calls| - 1];
      StepAccounting(w, calls[..|calls| - 1], k);
      LastStep(w, calls);
      if Plan(before, last).Ok? { HistoryStep(before, Plan(before, last).value, k); }
    }
  }

  /** A run with `n` compensating resumes takes the claim forward at most `7 + n` times. */
  lemma ForwardStepsBounded(w: World, calls: seq<Invocation>, k: Key)
    requires Genesis(w)
    ensures var t := Recount(Run(w, calls).lifecycle.log, k); t.forward <= 7 + t.compensations
  {
    StepAccounting(w, calls, k);
  }
}
