/** jCLAIM supply against the issuance ledger. */
module Supply {
  import opened Options
  import opened Common
  import opened Ledger
  import opened ContractRuns
  import opened Issuance
  import opened Totals

  /** Tokens a move takes out of circulation without touching any claim's issuance. */
  function Removed(m: Move): int {
    if m.Sweep? || m.HolderBurn? then m.amount else 0
  }

  function UnscopedRemoval(w: World, i: Invocation): int {
    if Plan(w, i).Ok? then Removed(Plan(w, i).value) else 0
  }

  function UnscopedRemovals(w: World, calls: seq<Invocation>): int {
    if calls == [] then 0
    else UnscopedRemovals(w, calls[..|calls| - 1]) + UnscopedRemoval(Run(w, calls[..|calls| - 1]), calls[|calls| - 1])
  }

  lemma CreditTotal(t: Token, a: Address, amount: nat)
    ensures Total(Credit(t, a, amount).balances) == Total(t.balances) + amount
  {
    TotalShift(t.balances, Credit(t, a, amount).balances, a);
  }

  lemma DebitTotal(t: Token, a: Address, amount: int)
    requires 0 <= amount <= t.Balance(a)
    ensures Total(Debit(t, a, amount).balances) == Total(t.balances) - amount
  {
    TotalShift(t.balances, Debit(t, a, amount).balances, a);
  }

  /** Every legal move changes tokens and issuance by the same amount, unscoped removals apart. */
  lemma BalancesAfter(w: World, m: Move)
    requires Legal(w, m)
    ensures Total(Apply(w, m).token.balances) == Total(w.token.balances) +
              if m.Issue? then m.amount else if m.Redeem? || m.ClawbackClaim? then -m.amount else -Removed(m)
  {
    match m
    case Issue(_, h, amount) => CreditTotal(w.token, h, amount);
    case Redeem(_, h, amount, _) => DebitTotal(w.token, h, amount);
    case ClawbackClaim(_, h, amount) => DebitTotal(w.token, h, amount);
    case Sweep(h, amount) => DebitTotal(w.token, h, amount);
    case HolderBurn(h, amount) => DebitTotal(w.token, h, amount);
    case Transfer(sender, recipient, amount) =>
      DebitTotal(w.token, sender, amount);
      CreditTotal(Debit(w.token, sender, amount), recipient, amount);
    case _ =>
  }

  lemma IssuedAfter(w: World, m: Move)
    requires Legal(w, m)
    ensures Total(Apply(w, m).controller.issued) == Total(w.controller.issued) +
              if m.Issue? then m.amount else if m.Redeem? || m.ClawbackClaim? then -m.amount else 0
  {
    if m.Issue? || m.Redeem? || m.ClawbackClaim? {
      TotalShift(w.controller.issued, Apply(w, m).controller.issued, m.k);
    }
  }

  lemma SupplyStep(w: World, i: Invocation)
    requires Plan(w, i).Ok? && Legal(w, Plan(w, i).value)
    ensures Total(Step(w, i).token.balances) + UnscopedRemoval(w, i) - Total(Step(w, i).controller.issued)
            == Total(w.token.balances) - Total(w.controller.issued)
  {
    BalancesAfter(w, Plan(w, i).value);
    IssuedAfter(w, Plan(w, i).value);
  }

  /** In every run, with arbitrary transfers: all balances plus everything removed by the unscoped clawback
      or burned by holders themselves equal all claims' outstanding issuance. */
  lemma {:induction false} SupplyConservation(w: World, calls: seq<Invocation>)
    requires Genesis(w)
    ensures Total(Run(w, calls).token.balances) + UnscopedRemovals(w, calls) == Total(Run(w, calls).controller.issued)
  {
    if calls != [] {
      var before, last := Run(w, calls[..|calls| - 1]), calls[|calls| - 1];
      SupplyConservation(w, calls[..|calls| - 1]);
      LastStep(w, calls);
      if Plan(before, last).Ok? { SupplyStep(before, last); }
    }
  }

  // Runs whose tokens move only through claims.

  predicate ClaimScoped(calls: seq<Invocation>) {
    forall j | 0 <= j < |calls| :: !calls[j].call.Transfer? && !calls[j].call.Clawback? && !calls[j].call.BurnHeld?
  }

  /** The issuance of the claims recorded for holder `h`. */
  function Holdings(c: Controller, h: Address): map<Key, int> {
    map k <- c.issued :: if Lookup(c.holder, k) == Some(h) then c.issued[k] else 0
  }

  ghost predicate Covered(w: World) {
    forall h :: w.token.Balance(h) == Total(Holdings(w.controller, h))
  }

  lemma CoveredStep(w: World, m: Move)
    requires Legal(w, m) && !m.Transfer? && !m.Sweep? && !m.HolderBurn? && Covered(w)
    ensures Covered(Apply(w, m))
  {
    var v := Apply(w, m);
    forall h
      ensures v.token.Balance(h) == Total(Holdings(v.controller, h))
    {
      HoldingsStep(w, m, h);
    }
  }

  lemma HoldingsStep(w: World, m: Move, h: Address)
    requires Legal(w, m) && !m.Transfer? && !m.Sweep? && !m.HolderBurn?
    requires w.token.Balance(h) == Total(Holdings(w.controller, h))
    ensures Apply(w, m).token.Balance(h) == Total(Holdings(Apply(w, m).controller, h))
  {
    if m.Issue? {
      IssueHolds(w, m, h);
    } else if m.Redeem? || m.ClawbackClaim? {
      RemovalHolds(w, m, h);
    } else {
      assert Holdings(ApplyController(w.controller, m), h) == Holdings(w.controller, h);
    }
  }

  lemma IssueHolds(w: World, m: Move, h: Address)
    requires m.Issue? && Legal(w, m) && w.token.Balance(h) == Total(Holdings(w.controller, h))
    ensures Apply(w, m).token.Balance(h) == Total(Holdings(Apply(w, m).controller, h))
  {
    HoldingsShift(w.controller, ApplyController(w.controller, m), m.k, h);
  }

  lemma RemovalHolds(w: World, m: Move, h: Address)
    requires (m.Redeem? || m.ClawbackClaim?) && Legal(w, m) && w.token.Balance(h) == Total(Holdings(w.controller, h))
    ensures Apply(w, m).token.Balance(h) == Total(Holdings(Apply(w, m).controller, h))
  {
    HoldingsShift(w.controller, ApplyController(w.controller, m), m.k, h);
  }

  /** Touching one claim's issuance and holder changes the holdings of `h` by that claim's share alone. */
  lemma HoldingsShift(c: Controller, d: Controller, k: Key, h: Address)
    requires c.issued - {k} == d.issued - {k} && c.holder - {k} == d.holder - {k}
    ensures Total(Holdings(d, h)) - At(Holdings(d, h), k) == Total(Holdings(c, h)) - At(Holdings(c, h), k)
  {
    forall j | j != k
      ensures j in c.issued <==> j in d.issued
      ensures j in c.issued ==> c.issued[j] == d.issued[j]
      ensures Lookup(c.holder, j) == Lookup(d.holder, j)
    {
      assert j in c.issued <==> j in c.issued - {k};
      assert j in d.issued <==> j in d.issued - {k};
      assert j in c.holder <==> j in c.holder - {k};
      assert j in d.holder <==> j in d.holder - {k};
      assert j in c.issued ==> c.issued[j] == (c.issued - {k})[j];
      assert j in d.issued ==> d.issued[j] == (d.issued - {k})[j];
      assert j in c.holder ==> c.holder[j] == (c.holder - {k})[j];
      assert j in d.holder ==> d.holder[j] == (d.holder - {k})[j];
    }
    assert Holdings(c, h) - {k} == Holdings(d, h) - {k};
    TotalShift(Holdings(c, h), Holdings(d, h), k);
  }

  lemma ScopedCallsPlanScopedMoves(w: World, i: Invocation)
    requires Plan(w, i).Ok? && !i.call.Transfer? && !i.call.Clawback? && !i.call.BurnHeld?
    ensures !Plan(w, i).value.Transfer? && !Plan(w, i).value.Sweep? && !Plan(w, i).value.HolderBurn?
  {
    match i.call
    case Issue(_, _, _, _) =>
    case Redeem(_, _, _, _) =>
    case ClawbackClaim(_, _, _, _) =>
    case CloseClaim(_, _) =>
    case CreateClaim(_, _) =>
    case ConfirmControl(_, _, _, _) =>
    case Transition(_, _, _, _) =>
    case Pause(_, _) =>
    case Resume(_, _, _) =>
    case _ =>
  }

  lemma {:induction false} BalancesAreHoldings(w: World, calls: seq<Invocation>)
    requires Genesis(w) && ClaimScoped(calls)
    ensures Covered(Run(w, calls))
  {
    if calls == [] {
      forall h ensures w.token.Balance(h) == Total(Holdings(w.controller, h)) {
        assert Holdings(w.controller, h) == map[];
      }
    } else {
      var before, last := Run(w, calls[..|calls| - 1]), calls[|calls| - 1];
      BalancesAreHoldings(w, calls[..|calls| - 1]);
      LastStep(w, calls);
      if Plan(before, last).Ok? {
        ScopedCallsPlanScopedMoves(before, last);
        CoveredStep(before, Plan(before, last).value);
      }
    }
  }

  /** A redemption or claim clawback that passes its own amount and holder checks is always covered. */
  lemma CheckedAmountsAreCovered(w: World, calls: seq<Invocation>, k: Key, h: Address, amount: int)
    requires Genesis(w) && ClaimScoped(calls)
    requires var c := Run(w, calls).controller; 0 < amount <= c.Outstanding(k) && Lookup(c.holder, k) == Some(h)
    ensures amount <= Run(w, calls).token.Balance(h)
  {
    var v := Run(w, calls);
    BalancesAreHoldings(w, calls);
    var held := Holdings(v.controller, h);
    forall j | j in held ensures held[j] >= 0 { IssuanceBound(w, calls, j); }
    TotalAtLeast(held, k);
  }
}
