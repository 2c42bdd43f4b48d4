/** Whoever may act, a claim that has come to Repaid can be closed exactly while something is issued on it. */
module Closing {
  import opened Options
  import opened Common
  import opened Ledger
  import opened ContractRuns
  import opened ClaimHistory
  import opened Issuance
  import opened Supply

  function Everyone(w: World, h: Address): set<Address> {
    {w.controller.admin, w.controller.operator, w.lifecycle.admin, h}
  }

  /** Everything about claims, tokens and who governs them is unchanged. */
  predicate SameClaims(w: World, v: World) {
    && v.lifecycle.claims == w.lifecycle.claims && v.lifecycle.admin == w.lifecycle.admin
    && v.controller.issued == w.controller.issued && v.controller.holder == w.controller.holder
    && v.controller.operator == w.controller.operator && v.controller.admin == w.controller.admin
    && v.token.balances == w.token.balances
  }

  /** Lift a global pause, authorize the holder and grant the operator its role. */
  function Preparation(w: World, h: Address): seq<Invocation> {
    var all, admin := Everyone(w, h), w.controller.admin;
    [Invocation(all, true, Call.SetPauser(admin, admin, true)),
     Invocation(all, true, Call.SetGlobalPause(admin, false)),
     Invocation(all, true, AuthorizeHolder(w.controller.operator, h, true)),
     Invocation(all, true, Call.SetRole(w.lifecycle.admin, Issuer, w.controller.operator, true))]
  }

  lemma PauserStep(w: World, all: set<Address>)
    requires w.controller.admin in all
    ensures var v := Step(w, Invocation(all, true, Call.SetPauser(w.controller.admin, w.controller.admin, true)));
            SameClaims(w, v) && v.lifecycle == w.lifecycle && Flag(v.controller.pausers, w.controller.admin)
  {
  }

  lemma UnpauseStep(w: World, all: set<Address>)
    requires w.controller.admin in all && Flag(w.controller.pausers, w.controller.admin)
    ensures var v := Step(w, Invocation(all, true, Call.SetGlobalPause(w.controller.admin, false)));
            SameClaims(w, v) && !v.controller.globalPause && v.lifecycle == w.lifecycle
  {
  }

  lemma AuthorizeStep(w: World, h: Address, all: set<Address>)
    requires w.controller.operator in all && !w.controller.globalPause
    ensures var v := Step(w, Invocation(all, true, AuthorizeHolder(w.controller.operator, h, true)));
            SameClaims(w, v) && h !in v.token.deauthorized
  {
  }

  lemma GrantStep(w: World, all: set<Address>)
    requires w.lifecycle.admin in all
    ensures var grant := Call.SetRole(w.lifecycle.admin, Issuer, w.controller.operator, true);
            var v := Step(w, Invocation(all, true, grant));
            SameClaims(w, v) && v.token == w.token && v.lifecycle.HasRole(Issuer, w.controller.operator)
  {
  }

  lemma PreparationPrepares(w: World, h: Address)
    ensures Driven(Preparation(w, h))
    ensures var v := Run(w, Preparation(w, h));
            SameClaims(w, v) && h !in v.token.deauthorized && v.lifecycle.HasRole(Issuer, v.controller.operator)
  {
    var p := Preparation(w, h);
    RunFour(w, p[0], p[1], p[2], p[3]);
    PauserStep(w, Everyone(w, h));
    UnpauseStep(Step(w, p[0]), Everyone(w, h));
    var unpaused := Step(Step(w, p[0]), p[1]);
    AuthorizeStep(unpaused, h, Everyone(w, h));
    GrantStep(Step(unpaused, p[2]), Everyone(w, h));
  }

  /** Resume a paused Repaid claim. */
  lemma ResumeStep(w: World, all: set<Address>, k: Key)
    requires w.lifecycle.admin in all && CanEnter(w.lifecycle, k)
    requires w.lifecycle.claims[k].state.Paused? && w.lifecycle.claims[k].hasPausedFrom
    requires w.lifecycle.claims[k].pausedFrom.Repaid?
    ensures var v := Step(w, Invocation(all, true, Call.Resume(w.lifecycle.admin, k, Repaid)));
            && v.controller == w.controller && v.token == w.token && v.lifecycle.roles == w.lifecycle.roles
            && k in v.lifecycle.claims && v.lifecycle.claims[k].state.Repaid? && PauseWellFormed(v.lifecycle.claims[k])
            && v.lifecycle.claims[k].stateVersion == w.lifecycle.claims[k].stateVersion + 1
  {
  }

  /** The claim is Repaid, seen through a pause, with its tokens in the hands of its recorded holder and three
      versions left. */
  predicate Closable(w: World, k: Key, h: Address) {
    && k in w.lifecycle.claims && PauseWellFormed(w.lifecycle.claims[k])
    && w.lifecycle.claims[k].Effective().Repaid? && w.lifecycle.claims[k].stateVersion < U32_MAX - 2
    && Lookup(w.controller.holder, k) == Some(h) && 0 < w.controller.Outstanding(k) <= w.token.Balance(h)
  }

  lemma PreparedStaysClosable(w: World, v: World, k: Key, h: Address)
    requires Closable(w, k, h) && SameClaims(w, v)
    ensures Closable(v, k, h)
  {
  }

  /** Driven calls that leave a claim which its operator and holder can finish. */
  lemma ReachFinishable(w: World, k: Key, h: Address) returns (calls: seq<Invocation>)
    requires Closable(w, k, h)
    ensures Driven(calls)
    ensures var v := Run(w, calls);
            && CanFinish(v, Everyone(w, h), k, h) && PauseWellFormed(v.lifecycle.claims[k])
            && v.controller.Outstanding(k) > 0
  {
    calls := Preparation(w, h);
    PreparationPrepares(w, h);
    var v := Run(w, calls);
    PreparedStaysClosable(w, v, k, h);
    if v.lifecycle.claims[k].state.Paused? {
      var resume := Invocation(Everyone(w, h), true, Call.Resume(v.lifecycle.admin, k, Repaid));
      ResumeStep(v, Everyone(w, h), k);
      RunAppend(w, calls, resume);
      calls := calls + [resume];
    }
  }

  lemma ClosableCloses(w: World, k: Key, h: Address)
    requires Closable(w, k, h)
    ensures exists calls :: Driven(calls) && ClosesIn(w, calls, k)
  {
    var first := ReachFinishable(w, k, h);
    ClosableIffIssued(Run(w, first), Everyone(w, h), k, h);
    var second :| Driven(second) && ClosesIn(Run(w, first), second, k);
    RunConcat(w, first, second);
    assert Driven(first + second) && ClosesIn(w, first + second, k);
  }

  /** In every driven run whose tokens only move through claims, a claim that has come to Repaid, paused or not, and
      has three versions left, is closed by some continuation exactly if something is issued on it. */
  lemma RepaidClosableIffIssued(w: World, calls: seq<Invocation>, k: Key)
    requires Genesis(w) && Driven(calls) && ClaimScoped(calls) && k in Run(w, calls).lifecycle.claims
    requires var c := Run(w, calls).lifecycle.claims[k]; c.Effective().Repaid? && c.stateVersion < U32_MAX - 2
    ensures (exists more :: Driven(more) && ClosesIn(Run(w, calls), more, k)) <==>
            Run(w, calls).controller.Outstanding(k) > 0
  {
    var v := Run(w, calls);
    StepAccounting(w, calls, k);
    IssuanceBound(w, calls, k);
    if v.controller.Outstanding(k) > 0 {
      var h := IssuedIsClosable(w, calls, k);
      ClosableCloses(v, k, h);
    } else {
      EmptyNeverCloses(v, k);
    }
  }

  lemma IssuedIsClosable(w: World, calls: seq<Invocation>, k: Key) returns (h: Address)
    requires Genesis(w) && ClaimScoped(calls) && k in Run(w, calls).lifecycle.claims
    requires var c := Run(w, calls).lifecycle.claims[k]; c.Effective().Repaid? && c.stateVersion < U32_MAX - 2
    requires Run(w, calls).controller.Outstanding(k) > 0
    ensures Closable(Run(w, calls), k, h)
  {
    StepAccounting(w, calls, k);
    IssuanceBound(w, calls, k);
    h := Run(w, calls).controller.holder[k];
    CheckedAmountsAreCovered(w, calls, k, h, Run(w, calls).controller.Outstanding(k));
  }

  lemma EmptyNeverCloses(w: World, k: Key)
    requires k in w.lifecycle.claims && PauseWellFormed(w.lifecycle.claims[k])
    requires w.lifecycle.claims[k].Effective().Repaid? && w.controller.Outstanding(k) == 0
    ensures forall more :: Driven(more) ==> !ClosesIn(w, more, k)
  {
    forall more | Driven(more) ensures !ClosesIn(w, more, k) { SpentForever(w, more, k); }
  }
}
