/** The happy-path finalizer: redeem, release, close and record, with a crash or interference possible at
    every remote call, and the later promotion of the claim row from a lagging projection. */
module HappyFinalizer {
  import opened Options
  import opened Common
  import opened Ledger
  import opened ContractRuns
  import opened ClaimHistory
  import opened ClaimProvenance
  import opened Issuance

  datatype ClaimId = ClaimId(id: nat)

  /** The tenant's row of a claim; `state` uses the on-chain names. */
  datatype ClaimRow = ClaimRow(claimKey: Key, state: ClaimState, version: nat)

  /** The chain, the claim rows, the projected states and the unreconciled redemption operations. */
  datatype Sys = Sys(chain: World, rows: map<ClaimId, ClaimRow>, projected: map<Key, ClaimState>, pending: set<ClaimId>)

  /** One atomic event of the system, by the finalizer or by anyone else. */
  datatype Action =
    | Chain(i: Invocation)
    | Index(k: Key)                 // the indexer catches up with one claim
    | Record(id: ClaimId)           // `#expectClose` commits
    | Reconcile(id: ClaimId)        // a recorded close is reconciled
    | Promote(id: ClaimId)          // `#promoteIndexedClose` commits

  function Act(s: Sys, a: Action): Sys {
    match a
    case Chain(i) => s.(chain := Step(s.chain, i))
    case Index(k) =>
      if k in s.chain.lifecycle.claims then s.(projected := s.projected[k := s.chain.lifecycle.claims[k].state]) else s
    case Record(id) => s.(pending := s.pending + {id})
    case Reconcile(id) => s.(pending := s.pending - {id})
    case Promote(id) =>
      if id in s.rows && !s.rows[id].state.Closed? then
        s.(rows := s.rows[id := s.rows[id].(state := Closed, version := s.rows[id].version + 1)])
      else s
  }

  function Acts(s: Sys, actions: seq<Action>): Sys {
    if actions == [] then s else Act(Acts(s, actions[..|actions| - 1]), actions[|actions| - 1])
  }

  predicate ProjectedClosed(s: Sys, id: ClaimId) {
    id in s.rows && Lookup(s.projected, s.rows[id].claimKey) == Some(Closed)
  }

  /** Actions admitted below: Issuer-role edges go through the controller, and a row is promoted only when
      its projection says CLOSED. */
  predicate Admitted(s: Sys, a: Action) {
    match a
    case Chain(i) => IssuerEdgesThroughController(i)
    case Promote(id) => ProjectedClosed(s, id)
    case _ => true
  }

  predicate AllAdmitted(s: Sys, actions: seq<Action>) {
    actions == [] ||
    (AllAdmitted(s, actions[..|actions| - 1]) && Admitted(Acts(s, actions[..|actions| - 1]), actions[|actions| - 1]))
  }

  lemma ActsAppend(s: Sys, actions: seq<Action>, a: Action)
    ensures Acts(s, actions + [a]) == Act(Acts(s, actions), a)
    ensures AllAdmitted(s, actions + [a]) == (AllAdmitted(s, actions) && Admitted(Acts(s, actions), a))
  {
    assert (actions + [a])[..|actions|] == actions;
  }

  /** The projection is never ahead of the chain on CLOSED. */
  predicate ProjectionBehind(s: Sys) {
    forall k <- s.projected :: s.projected[k].Closed? ==>
      k in s.chain.lifecycle.claims && s.chain.lifecycle.claims[k].state.Closed?
  }

  lemma StepContinues(w: World, i: Invocation)
    ensures Continues(w, Step(w, i))
  {
    if Plan(w, i).Ok? {
      PlannedMovesAreLegal(w, i);
      ContinuesStep(w, Plan(w, i).value);
    }
  }

  lemma ProjectionStaysBehind(s: Sys, a: Action)
    requires ProjectionBehind(s)
    ensures ProjectionBehind(Act(s, a))
    ensures forall id :: ProjectedClosed(s, id) ==> ProjectedClosed(Act(s, a), id)
  {
    if a.Chain? { StepContinues(s.chain, a.i); }
  }

  // What one claim's wind-down conserves.

  function Burned(log: seq<AssetEvent>, k: Key): int {
    if log == [] then 0
    else
      var e := log[|log| - 1];
      Burned(log[..|log| - 1], k) +
      if (e.AssetRedeemed? || e.ClaimAssetClawedBack?) && e.claimKey == k then e.amount else 0
  }

  function Closings(log: seq<ClaimEvent>, k: Key): nat {
    if log == [] then 0
    else
      var e := log[|log| - 1];
      Closings(log[..|log| - 1], k) + Bit(e.Transitioned? && e.claimKey == k && e.next.Closed?)
  }

  /** A claim on its happy way out: Repaid, Redeemed or Closed, owing nothing once Redeemed, closed once. */
  predicate WindingDown(w: World, k: Key) {
    && k in w.lifecycle.claims && PauseWellFormed(w.lifecycle.claims[k])
    && var s := w.lifecycle.claims[k].Effective();
       && (s.Repaid? || s.Redeemed? || s.Closed?)
       && (!s.Repaid? ==> w.controller.Outstanding(k) == 0)
       && Closings(w.lifecycle.log, k) == Bit(s.Closed?)
  }

  lemma LogsAppend(log: seq<AssetEvent>, e: AssetEvent, events: seq<ClaimEvent>, f: ClaimEvent, k: Key)
    ensures Burned(log + [e], k) == Burned(log, k) +
              if (e.AssetRedeemed? || e.ClaimAssetClawedBack?) && e.claimKey == k then e.amount else 0
    ensures Closings(events + [f], k) == Closings(events, k) + Bit(f.Transitioned? && f.claimKey == k && f.next.Closed?)
  {
    assert (log + [e])[..|log|] == log;
    assert (events + [f])[..|events|] == events;
  }

  /** How a legal move extends the two logs. */
  lemma LogsOf(w: World, m: Move, k: Key)
    requires Legal(w, m)
    ensures var v := Apply(w, m);
            Burned(v.controller.log, k) == Burned(w.controller.log, k) +
              if (m.Redeem? || m.ClawbackClaim?) && m.k == k then m.amount else 0
    ensures var v := Apply(w, m);
            Closings(v.lifecycle.log, k) == Closings(w.lifecycle.log, k) +
              Bit((m.CloseOut? && m.k == k) || (m.Advance? && m.k == k && m.next.Closed?)
                  || (m.Reinstate? && m.k == k && m.target.Closed?))
  {
    var v := Apply(w, m);
    var log, log', events, events' := w.controller.log, v.controller.log, w.lifecycle.log, v.lifecycle.log;
    if log' != log {
      assert log' == log + [log'[|log|]];
      LogsAppend(log, log'[|log|], [], Created(k), k);
    }
    if events' != events {
      assert events' == events + [events'[|events|]];
      LogsAppend([], AssetClawedBack(w.controller.operator, 0), events, events'[|events|], k);
    }
  }

  /** What a step of winding down keeps. */
  predicate Winds(w: World, v: World, k: Key) {
    && WindingDown(v, k)
    && Burned(v.controller.log, k) + v.controller.Outstanding(k)
       == Burned(w.controller.log, k) + w.controller.Outstanding(k)
  }

  lemma WindingStep(w: World, m: Move, k: Key)
    requires Legal(w, m) && DrivenMove(w, m) && WindingDown(w, k)
    ensures Winds(w, Apply(w, m), k)
  {
    if Subject(m) != Some(k) {
      WindingElsewhere(w, m, k);
    } else if m.Redeem? || m.ClawbackClaim? {
      WindingRemoval(w, m);
    } else if m.CloseOut? {
      WindingClose(w, m);
    } else {
      WindingTransition(w, m);
    }
  }

  lemma WindingElsewhere(w: World, m: Move, k: Key)
    requires Legal(w, m) && WindingDown(w, k) && Subject(m) != Some(k)
    ensures Winds(w, Apply(w, m), k)
  {
    LogsOf(w, m, k);
    OtherClaimsUntouched(w, m, k);
  }

  lemma WindingRemoval(w: World, m: Move)
    requires (m.Redeem? || m.ClawbackClaim?) && Legal(w, m) && WindingDown(w, m.k)
    ensures Winds(w, Apply(w, m), m.k)
  {
    LogsOf(w, m, m.k);
  }

  lemma WindingClose(w: World, m: Move)
    requires m.CloseOut? && Legal(w, m) && WindingDown(w, m.k)
    ensures Winds(w, Apply(w, m), m.k)
  {
    LogsOf(w, m, m.k);
  }

  /** Of the other moves only pausing and resuming are still possible. */
  lemma WindingTransition(w: World, m: Move)
    requires Subject(m).Some? && !m.Redeem? && !m.ClawbackClaim? && !m.CloseOut?
    requires Legal(w, m) && DrivenMove(w, m) && WindingDown(w, Subject(m).value)
    ensures Winds(w, Apply(w, m), Subject(m).value)
  {
    LogsOf(w, m, Subject(m).value);
  }

  /** The safety of one claim's finalization, relative to where it started. */
  predicate Safe(start: Sys, s: Sys, k: Key, id: ClaimId) {
    && WindingDown(s.chain, k) && ProjectionBehind(s)
    && Burned(s.chain.controller.log, k) + s.chain.controller.Outstanding(k)
       == Burned(start.chain.controller.log, k) + start.chain.controller.Outstanding(k)
    && id in start.rows && id in s.rows
    && (s.rows[id] == start.rows[id]
        || (s.rows[id] == start.rows[id].(state := Closed, version := start.rows[id].version + 1)
            && s.chain.lifecycle.claims[k].state.Closed?))
  }

  lemma SafeStep(start: Sys, s: Sys, a: Action, k: Key, id: ClaimId)
    requires Safe(start, s, k, id) && id in start.rows && start.rows[id].claimKey == k && Admitted(s, a)
    ensures Safe(start, Act(s, a), k, id)
  {
    ProjectionStaysBehind(s, a);
    if a.Chain? {
      StepContinues(s.chain, a.i);
      if Plan(s.chain, a.i).Ok? {
        PlannedMovesAreLegal(s.chain, a.i);
        DrivenInvocation(s.chain, a.i);
        WindingStep(s.chain, Plan(s.chain, a.i).value, k);
      }
    }
  }

  /** Crash safety: start from a claim Repaid on chain with tokens out and a REPAID row. Whatever the finalizer
      and everyone else do, in any order, with any number of crashes and re-runs: tokens burned plus tokens
      still out never change, a Closed claim has burned exactly its initial issuance, the chain closes it at
      most once, and the row moves to CLOSED (version + 1) at most once and only after the chain did. */
  lemma {:induction false} CrashSafety(start: Sys, actions: seq<Action>, k: Key, id: ClaimId)
    requires WindingDown(start.chain, k) && start.chain.lifecycle.claims[k].state.Repaid?
    requires ProjectionBehind(start) && id in start.rows && start.rows[id].claimKey == k && start.rows[id].state.Repaid?
    requires AllAdmitted(start, actions)
    ensures Safe(start, Acts(start, actions), k, id)
    ensures var s := Acts(start, actions);
            && (s.chain.lifecycle.claims[k].state.Closed? ==>
                  Burned(s.chain.controller.log, k) - Burned(start.chain.controller.log, k)
                      == start.chain.controller.Outstanding(k))
            && Closings(s.chain.lifecycle.log, k) <= 1
            && (s.rows[id].state.Closed? ==> s.chain.lifecycle.claims[k].state.Closed?)
            && s.rows[id].version <= start.rows[id].version + 1
  {
    if actions != [] {
      CrashSafety(start, actions[..|actions| - 1], k, id);
      SafeStep(start, Acts(start, actions[..|actions| - 1]), actions[|actions| - 1], k, id);
    }
  }

  /** In every run the chain records exactly one closing of a Closed claim and none of any other. */
  lemma {:induction false} ClosedAtMostOnce(w: World, calls: seq<Invocation>, k: Key)
    requires Genesis(w)
    ensures var l := Run(w, calls).lifecycle; Closings(l.log, k) == Bit(k in l.claims && l.claims[k].state.Closed?)
  {
    if calls != [] {
      var before, last := Run(w, calls[..|calls| - 1]), calls[|calls| - 1];
      ClosedAtMostOnce(w, calls[..|calls| - 1], k);
      StepAccounting(w, calls[..|calls| - 1], k);
      LastStep(w, calls);
      if Plan(before, last).Ok? {
        LogsOf(before, Plan(before, last).value, k);
        if Subject(Plan(before, last).value) != Some(k) { OtherClaimsUntouched(before, Plan(before, last).value, k); }
      }
    }
  }

  /** Every claim that a controller-driven run has brought to Repaid satisfies what crash safety starts from. */
  lemma RepaidClaimsWindDown(w: World, calls: seq<Invocation>, k: Key)
    requires Genesis(w) && Driven(calls)
    requires k in Run(w, calls).lifecycle.claims && Run(w, calls).lifecycle.claims[k].state.Repaid?
    ensures WindingDown(Run(w, calls), k)
  {
    StepAccounting(w, calls, k);
    ClosedAtMostOnce(w, calls, k);
  }

  // What only ever grows.

  predicate ChainClosed(w: World, k: Key) {
    k in w.lifecycle.claims && w.lifecycle.claims[k].state.Closed?
  }

  predicate RowClosed(s: Sys, id: ClaimId) {
    id in s.rows && s.rows[id].state.Closed?
  }

  /** Closed claims, stranded claims, closed projections and closed rows stay so, and the rows stay the same ones. */
  ghost predicate Later(s: Sys, t: Sys) {
    && s.rows.Keys == t.rows.Keys
    && (forall id :: ProjectedClosed(s, id) ==> ProjectedClosed(t, id))
    && (forall id :: RowClosed(s, id) ==> RowClosed(t, id))
    && (forall k :: ChainClosed(s.chain, k) ==> ChainClosed(t.chain, k))
    && (forall k :: Stranded(s.chain, k) ==> Stranded(t.chain, k))
  }

  lemma LaterTransitive(s: Sys, t: Sys, u: Sys)
    requires Later(s, t) && Later(t, u)
    ensures Later(s, u)
  {
  }

  lemma ClosedStaysClosed(w: World, i: Invocation, k: Key)
    ensures ChainClosed(w, k) ==> ChainClosed(Step(w, i), k)
    ensures i.call.CloseClaim? && i.call.k == k && Plan(w, i).Ok? ==> ChainClosed(Step(w, i), k)
  {
    StepContinues(w, i);
    if Plan(w, i).Ok? { PlannedMovesAreLegal(w, i); }
  }

  lemma StrandedStaysStranded(w: World, i: Invocation, k: Key)
    requires IssuerEdgesThroughController(i) && Stranded(w, k)
    ensures Stranded(Step(w, i), k)
  {
    if Plan(w, i).Ok? {
      PlannedMovesAreLegal(w, i);
      DrivenInvocation(w, i);
      SpentStep(w, Plan(w, i).value, k);
    }
  }

  lemma ActIsLater(s: Sys, a: Action)
    requires ProjectionBehind(s) && Admitted(s, a)
    ensures Later(s, Act(s, a))
  {
    ProjectionStaysBehind(s, a);
    if a.Chain? {
      forall k | ChainClosed(s.chain, k) ensures ChainClosed(Act(s, a).chain, k) { ClosedStaysClosed(s.chain, a.i, k); }
      forall k | Stranded(s.chain, k) ensures Stranded(Act(s, a).chain, k) { StrandedStaysStranded(s.chain, a.i, k); }
    }
  }

  /** In a longer run everything that only grows has grown. */
  lemma {:induction false} LongerIsLater(start: Sys, shorter: seq<Action>, longer: seq<Action>)
    requires ProjectionBehind(start) && AllAdmitted(start, longer) && shorter <= longer
    ensures Later(Acts(start, shorter), Acts(start, longer)) && ProjectionBehind(Acts(start, longer))
  {
    if longer != [] {
      var init := longer[..|longer| - 1];
      if shorter == longer {
        LongerIsLater(start, init, init);
      } else {
        LongerIsLater(start, shorter, init);
        ActIsLater(Acts(start, init), longer[|longer| - 1]);
        LaterTransitive(Acts(start, shorter), Acts(start, init), Acts(start, longer));
      }
      ProjectionStaysBehind(Acts(start, init), longer[|longer| - 1]);
    }
  }
}
