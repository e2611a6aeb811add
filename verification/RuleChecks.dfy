/** What a re-evaluation of the rules leaves behind. */
module RuleChecks {
  import opened Wrappers
  import opened Texts
  import opened DealTable
  import opened DealData
  import opened Deal
  import opened DealGuards

  predicate Failing(r: Rule, f: Option<Financials>) { Evaluate(r, f) == FAIL }

  /** Entry `i` was opened for a failing rule, and nothing before it was open under the same code. */
  predicate OpenedForCause(xs: seq<Discrepancy>, i: nat, rules: seq<Rule>, f: Option<Financials>)
    requires i < |xs|
  {
    (exists r | r in rules :: Failing(r, f) && xs[i] == Discrepancy(r.code, OPEN)) && xs[i] !in xs[..i]
  }

  /** Earlier discrepancies are kept, every failing rule has one open, and every new one was opened once,
      for a failing rule. */
  lemma {:induction false} OpensExactlyTheFailures(xs: seq<Discrepancy>, rules: seq<Rule>, f: Option<Financials>)
    ensures var ys := OpenedFor(xs, rules, f);
            && xs <= ys
            && (forall r | r in rules && Failing(r, f) :: Discrepancy(r.code, OPEN) in ys)
            && (forall i | |xs| <= i < |ys| :: OpenedForCause(ys, i, rules, f))
    decreases |rules|
  {
    if rules != [] {
      var r := rules[0];
      var more := if Evaluate(r, f) == FAIL && Discrepancy(r.code, OPEN) !in xs then xs + [Discrepancy(r.code, OPEN)] else xs;
      OpensExactlyTheFailures(more, rules[1..], f);
      var ys := OpenedFor(more, rules[1..], f);
      assert ys == OpenedFor(xs, rules, f);
      forall q | q in rules && Failing(q, f) ensures Discrepancy(q.code, OPEN) in ys {
        if q == r { assert Discrepancy(r.code, OPEN) in more; }
      }
      forall i | |xs| <= i < |ys| ensures OpenedForCause(ys, i, rules, f) {
        if i < |more| {
          assert ys[..i] == xs;
          assert r in rules;
        } else {
          assert OpenedForCause(ys, i, rules[1..], f);
        }
      }
    }
  }

  /** A rule that already has its discrepancy open opens no other. */
  lemma {:induction false} NothingLeftToOpen(xs: seq<Discrepancy>, rules: seq<Rule>, f: Option<Financials>)
    requires forall r | r in rules && Failing(r, f) :: Discrepancy(r.code, OPEN) in xs
    ensures OpenedFor(xs, rules, f) == xs
    decreases |rules|
  {
    if rules != [] {
      assert rules[0] in rules;
      NothingLeftToOpen(xs, rules[1..], f);
    }
  }

  /** Evaluating the same rules again opens nothing more. */
  lemma ReevaluationIsStable(d: Deal, rules: seq<Rule>)
    ensures Reevaluated(Reevaluated(d, rules), rules).discrepancies == Reevaluated(d, rules).discrepancies
  {
    OpensExactlyTheFailures(d.discrepancies, rules, d.financials.live);
    NothingLeftToOpen(Reevaluated(d, rules).discrepancies, rules, d.financials.live);
  }

  /** After a re-evaluation with a failing rule, only the paths that bypass the discrepancy guard are open. */
  lemma FailingRuleBlocks(d: Deal, rules: seq<Rule>, r: Rule, org: nat, to: State, roles: seq<Role>)
    requires r in rules && Failing(r, d.financials.live) && !BypassesDiscrepancyGuard(d.state, to)
    ensures Transition(Reevaluated(d, rules), org, to, roles).error.Some?
  {
    OpensExactlyTheFailures(d.discrepancies, rules, d.financials.live);
    assert Discrepancy(r.code, OPEN) in Reevaluated(d, rules).discrepancies;
  }

  // ----- What rules ask for -----

  /** The financials break the rule: more is financed than it allows, or it wants a lender and there is none. A rule of
      any other form is broken by nothing, and a limit not by financials that are missing. */
  predicate Breaks(f: Option<Financials>, r: Rule) {
    || (r.expression.MaxFinance? && f.Some? && f.value.amount > r.expression.maxAmount)
    || (r.expression.LenderRequired? && (f.None? || f.value.lender.None? || f.value.lender.value == []))
  }

  lemma FailingIsBroken(r: Rule, f: Option<Financials>)
    ensures Failing(r, f) <==> Breaks(f, r)
  {
  }

  /** The code has an open discrepancy. */
  predicate IsOpen(d: Deal, code: Text) { Discrepancy(code, OPEN) in d.discrepancies }

  predicate SomeBroken(rules: seq<Rule>, f: Option<Financials>, code: Text) {
    exists r | r in rules :: Breaks(f, r) && r.code == code
  }

  lemma OpenAfterRules(xs: seq<Discrepancy>, rules: seq<Rule>, f: Option<Financials>, code: Text)
    ensures var ys := OpenedFor(xs, rules, f);
            xs <= ys && (Discrepancy(code, OPEN) in ys <==> Discrepancy(code, OPEN) in xs || SomeBroken(rules, f, code))
  {
    var ys := OpenedFor(xs, rules, f);
    OpensExactlyTheFailures(xs, rules, f);
    if SomeBroken(rules, f, code) {
      var r :| r in rules && Breaks(f, r) && r.code == code;
      FailingIsBroken(r, f);
    }
    if Discrepancy(code, OPEN) in ys && Discrepancy(code, OPEN) !in xs {
      assert forall k | 0 <= k < |xs| :: ys[k] == xs[k];
      var i :| 0 <= i < |ys| && ys[i] == Discrepancy(code, OPEN);
      assert OpenedForCause(ys, i, rules, f);
      var r :| r in rules && Failing(r, f) && ys[i] == Discrepancy(r.code, OPEN);
      FailingIsBroken(r, f);
    }
  }

  lemma NothingBrokenOpensNothing(xs: seq<Discrepancy>, rules: seq<Rule>, f: Option<Financials>)
    requires forall r | r in rules :: !Breaks(f, r)
    ensures OpenedFor(xs, rules, f) == xs
  {
    forall r | r in rules && Failing(r, f) ensures Discrepancy(r.code, OPEN) in xs { FailingIsBroken(r, f); }
    NothingLeftToOpen(xs, rules, f);
  }

  /** The rules an accepted patch evaluates. */
  function RulesOf(a: Action): seq<Rule>
    requires IsPatch(a)
  {
    match a
    case DoPatchBuyer(_, _, _, rules) => rules
    case DoPatchVehicle(_, _, _, rules) => rules
    case DoPatchFinancials(_, _, _, rules) => rules
  }

  lemma PatchEvaluates(d: Deal, a: Action)
    requires IsPatch(a) && Handle(d, a).error.None?
    ensures var d' := Handle(d, a).deal;
            d'.discrepancies == OpenedFor(d.discrepancies, RulesOf(a), d'.financials.live)
  {
  }

  /** After an accepted patch of any record a code is open if and only if it was, or one of its rules is broken by the
      financials as stored; if none is broken, nothing is opened at all. */
  lemma PatchOpensExactly(d: Deal, a: Action, code: Text)
    requires IsPatch(a) && Handle(d, a).error.None?
    ensures var d' := Handle(d, a).deal;
            && d.discrepancies <= d'.discrepancies
            && (IsOpen(d', code) <==> IsOpen(d, code) || SomeBroken(RulesOf(a), d'.financials.live, code))
            && ((forall r | r in RulesOf(a) :: !Breaks(d'.financials.live, r)) ==> d'.discrepancies == d.discrepancies)
  {
    var f := Handle(d, a).deal.financials.live;
    PatchEvaluates(d, a);
    OpenAfterRules(d.discrepancies, RulesOf(a), f, code);
    if forall r | r in RulesOf(a) :: !Breaks(f, r) { NothingBrokenOpensNothing(d.discrepancies, RulesOf(a), f); }
  }

  lemma OpenStopsApproval(d: Deal, code: Text, to: State, roles: seq<Role>)
    requires IsOpen(d, code) && Approved(to)
    ensures Transition(d, d.orgId, to, roles).error.Some?
  {
    DiscrepancyStopsProgress(d, d.orgId, to, roles);
  }

  /** Financials over the limit of a rule are accepted, but open its discrepancy, and no approval succeeds. */
  lemma OverLimitStopsApproval(d: Deal, a: Action, code: Text, max: real, to: State, roles: seq<Role>)
    requires a.DoPatchFinancials? && a.financialsPatch.amount.Some? && Handle(d, a).error.None?
    requires Rule(code, MaxFinance(max)) in a.rules && RoundCents(a.financialsPatch.amount.value) > max && Approved(to)
    ensures var d' := Handle(d, a).deal; IsOpen(d', code) && Transition(d', d.orgId, to, roles).error.Some?
  {
    var d' := Handle(d, a).deal;
    assert d'.financials.live.Some? && d'.financials.live.value.amount == RoundCents(a.financialsPatch.amount.value);
    PatchOpensExactly(d, a, code);
    assert Breaks(d'.financials.live, Rule(code, MaxFinance(max)));
    OpenStopsApproval(d', code, to, roles);
  }

  /** The rule is a limit, the wish for a lender, or of a form that is not understood. */
  predicate Allows(r: Rule, amount: real, lender: Option<Text>) {
    && (r.expression.MaxFinance? ==> amount <= r.expression.maxAmount)
    && (r.expression.LenderRequired? ==> lender.Some? && lender.value != [])
  }

  /** Financials within every limit, with some lender where one is wanted, open nothing. */
  lemma WithinLimitsOpensNothing(d: Deal, a: Action)
    requires a.DoPatchFinancials? && Handle(d, a).error.None?
    requires var f := Handle(d, a).deal.financials.live;
             f.Some? && forall r | r in a.rules :: Allows(r, f.value.amount, f.value.lender)
    ensures Handle(d, a).deal.discrepancies == d.discrepancies
  {
    PatchOpensExactly(d, a, []);
  }

  /** A rule that wants a lender opens its discrepancy if there is none, or an empty one. */
  lemma MissingLenderIsOpened(d: Deal, a: Action, r: Rule)
    requires IsPatch(a) && Handle(d, a).error.None? && r in RulesOf(a) && r.expression.LenderRequired?
    ensures var d' := Handle(d, a).deal;
            d'.financials.live.None? || d'.financials.live.value.lender in {None, Some([])} ==> IsOpen(d', r.code)
  {
    PatchOpensExactly(d, a, r.code);
  }
}
