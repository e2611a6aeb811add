/** What every request keeps, and what therefore holds in every run of a deal. */
module DealRuns {
  import opened Wrappers
  import opened Texts
  import opened DealTable
  import opened DealData
  import opened Deal

  // ----- One step, seen as a state change -----

  /** The action overwrites the state without logging it: an administrator's hold or release on this deal. */
  predicate Overwrites(d: Deal, a: Action) {
    || (a.DoPlaceHold? && a.onDeal && a.org == d.orgId)
    || (a.DoReleaseHold? && a.hold < |d.holds| && d.holds[a.hold].onDeal && a.org == d.orgId && d.state == HOLD
        && (d.holds[a.hold].org.None? || d.holds[a.hold].org == Some(a.org)))
  }

  predicate DemotionEdge(from: State, to: State) {
    DemotionTarget(from) == Some(to)
  }

  predicate Stays(d: Deal, d': Deal) {
    d'.state == d.state && d'.phase == d.phase && d'.log == d.log
  }

  predicate TakesEdge(d: Deal, d': Deal) {
    Edge(d.state, d'.state) && d'.phase == MapLifecycle(d'.state, d.phase) && d'.log == d.log + [LogRow(d.state, d'.state)]
  }

  predicate IsDemoted(d: Deal, d': Deal) {
    DemotionEdge(d.state, d'.state) && d'.phase == d.phase && d'.log == d.log + [LogRow(d.state, d'.state)]
  }

  predicate IsOverwritten(d: Deal, d': Deal) {
    (d'.state == HOLD || (d.state == HOLD && d'.state == DRAFT)) && d'.phase == d.phase && d'.log == d.log
  }

  /** The state stays, moves along the table, is demoted, or is overwritten. */
  predicate StateStep(d: Deal, a: Action, d': Deal) {
    Stays(d, d') || TakesEdge(d, d') || IsDemoted(d, d') || (Overwrites(d, a) && IsOverwritten(d, d'))
  }

  lemma StepChangesState(d: Deal, a: Action, d': Deal)
    requires StateStep(d, a, d')
    ensures d'.state == d.state || Edge(d.state, d'.state) || DemotionEdge(d.state, d'.state) || Overwrites(d, a)
  {
  }

  lemma TransitionIsEdge(d: Deal, org: nat, to: State, roles: seq<Role>)
    ensures var o := Transition(d, org, to, roles);
            if o.error.Some? then o.deal == d else Edge(d.state, to) && o.deal == Moved(d, to)
  {
  }

  lemma PatchBuyerIsStep(d: Deal, org: nat, p: BuyerPatch, expected: Option<nat>, rules: seq<Rule>)
    ensures var d' := PatchBuyer(d, org, p, expected, rules).deal; Stays(d, d') || IsDemoted(d, d')
  {
  }

  lemma PatchVehicleIsStep(d: Deal, org: nat, p: VehiclePatch, expected: Option<nat>, rules: seq<Rule>)
    ensures var d' := PatchVehicle(d, org, p, expected, rules).deal; Stays(d, d') || IsDemoted(d, d')
  {
  }

  lemma PatchFinancialsIsStep(d: Deal, org: nat, p: FinancialsPatch, expected: Option<nat>, rules: seq<Rule>)
    ensures var d' := PatchFinancials(d, org, p, expected, rules).deal; Stays(d, d') || IsDemoted(d, d')
  {
  }

  lemma SubmitIsStep(d: Deal, org: nat, doc: DocumentInfo, roles: seq<Role>)
    ensures var d' := Submit(d, org, doc, roles).deal; Stays(d, d') || TakesEdge(d, d')
  {
  }

  lemma VerifyIsStep(d: Deal, org: nat, contract: nat, hasVersion: bool, key: Option<Text>, roles: seq<Role>)
    ensures var d' := Verify(d, org, contract, hasVersion, key, roles).deal; Stays(d, d') || TakesEdge(d, d')
  {
  }

  lemma HoldIsStep(d: Deal, a: Action)
    requires a.DoPlaceHold? || a.DoReleaseHold?
    ensures var d' := Handle(d, a).deal; Stays(d, d') || (Overwrites(d, a) && IsOverwritten(d, d'))
  {
  }

  lemma StepIsStateStep(d: Deal, a: Action)
    ensures StateStep(d, a, Handle(d, a).deal)
  {
    match a {
      case DoTransition(org, to, roles) => TransitionIsEdge(d, org, to, roles);
      case DoPatchBuyer(org, p, expected, rules) => PatchBuyerIsStep(d, org, p, expected, rules);
      case DoPatchVehicle(org, p, expected, rules) => PatchVehicleIsStep(d, org, p, expected, rules);
      case DoPatchFinancials(org, p, expected, rules) => PatchFinancialsIsStep(d, org, p, expected, rules);
      case DoSubmit(org, doc, roles) => SubmitIsStep(d, org, doc, roles);
      case DoVerify(org, contract, hasVersion, key, roles) => VerifyIsStep(d, org, contract, hasVersion, key, roles);
      case DoClear(org, roles, now) => TransitionIsEdge(d, org, GREEN_STAGE_2, roles);
      case DoPlaceHold(_, _, _) => HoldIsStep(d, a);
      case DoReleaseHold(_, _) => HoldIsStep(d, a);
      case DoSideTables(_, _, _, _) =>
    }
  }

  // ----- Phase and verification -----

  /** The lifecycle phase each approved, executed and sealed state carries; and a verified contract
      behind every sealed state. */
  predicate PhaseOk(d: Deal) {
    PhaseFits(d.state, d.phase) && (Sealed(d.state) ==> HasVerifiedContract(d))
  }

  predicate PhaseFits(s: State, phase: Phase) {
    && (Approved(s) ==> phase == APPROVED_PHASE)
    && (Executed(s) ==> phase == EXECUTED_PHASE)
    && (Sealed(s) ==> phase == LOCKED_PHASE)
  }

  lemma EdgeKeepsFit(from: State, to: State, phase: Phase)
    requires Edge(from, to) && PhaseFits(from, phase)
    ensures PhaseFits(to, MapLifecycle(to, phase))
  {
    EdgesAreOrdered(from, to);
  }

  lemma SubmitSealsNothing(d: Deal, org: nat, doc: DocumentInfo, roles: seq<Role>)
    requires Sealed(Submit(d, org, doc, roles).deal.state)
    ensures Submit(d, org, doc, roles).deal == d
  {
  }

  lemma VerifySealsNothing(d: Deal, org: nat, contract: nat, hasVersion: bool, key: Option<Text>, roles: seq<Role>)
    requires Sealed(Verify(d, org, contract, hasVersion, key, roles).deal.state)
    ensures Verify(d, org, contract, hasVersion, key, roles).deal == d
  {
  }

  lemma LockNeedsContract(d: Deal, org: nat, to: State, roles: seq<Role>)
    requires Transition(d, org, to, roles).error.None? && to == LOCKED
    ensures HasVerifiedContract(d)
  {
  }

  lemma OnlyExecutionTouchesContracts(d: Deal, a: Action)
    ensures !a.DoSubmit? && !a.DoVerify? ==> Handle(d, a).deal.contracts == d.contracts
  {
  }

  /** The deal has just been locked, or it was sealed already. */
  lemma SealedBefore(d: Deal, a: Action, d': Deal)
    requires StateStep(d, a, d') && Sealed(d'.state)
    ensures Sealed(d.state) || (d'.state == LOCKED && Executed(d.state))
  {
    if Edge(d.state, d'.state) { EdgesAreOrdered(d.state, d'.state); }
  }

  lemma SealedHasContract(d: Deal, a: Action)
    requires PhaseOk(d) && Sealed(Handle(d, a).deal.state)
    ensures HasVerifiedContract(Handle(d, a).deal)
  {
    StepIsStateStep(d, a);
    SealedBefore(d, a, Handle(d, a).deal);
    match a {
      case DoSubmit(org, doc, roles) => SubmitSealsNothing(d, org, doc, roles);
      case DoVerify(org, contract, hasVersion, key, roles) => VerifySealsNothing(d, org, contract, hasVersion, key, roles);
      case DoTransition(org, to, roles) =>
        if Transition(d, org, to, roles).error.None? && to == LOCKED { LockNeedsContract(d, org, to, roles); }
      case _ =>
        OnlyExecutionTouchesContracts(d, a);
    }
  }

  lemma PhaseFollowsState(d: Deal, a: Action, d': Deal)
    requires PhaseFits(d.state, d.phase) && StateStep(d, a, d')
    ensures PhaseFits(d'.state, d'.phase)
  {
    if TakesEdge(d, d') { EdgeKeepsFit(d.state, d'.state, d.phase); }
  }

  lemma StepKeepsPhase(d: Deal, a: Action)
    requires PhaseOk(d)
    ensures PhaseOk(Handle(d, a).deal)
  {
    StepIsStateStep(d, a);
    if Sealed(Handle(d, a).deal.state) { SealedHasContract(d, a); }
    PhaseFollowsState(d, a, Handle(d, a).deal);
  }

  lemma PhaseNext(ds: seq<Deal>, actions: seq<Action>, k: nat)
    requires Run(ds, actions) && k < |actions| && PhaseOk(ds[k])
    ensures PhaseOk(ds[k + 1])
  {
    RunStep(ds, actions, k);
    StepKeepsPhase(ds[k], actions[k]);
  }

  lemma {:induction false} RunKeepsPhase(ds: seq<Deal>, actions: seq<Action>, n: nat)
    requires Run(ds, actions) && n < |ds|
    ensures PhaseOk(ds[n])
  {
    if n > 0 {
      RunKeepsPhase(ds, actions, n - 1);
      PhaseNext(ds, actions, n - 1);
    }
  }

  // ----- Executed contracts -----

  predicate AtMostOneAuthoritative(d: Deal) {
    forall i, j | 0 <= i < j < |d.contracts| :: !(d.contracts[i].authoritative && d.contracts[j].authoritative)
  }

  lemma SubmitKeepsAuthority(d: Deal, org: nat, doc: DocumentInfo, roles: seq<Role>)
    requires AtMostOneAuthoritative(d)
    ensures AtMostOneAuthoritative(Submit(d, org, doc, roles).deal)
    ensures Submit(d, org, doc, roles).error.None? ==>
              var cs := Submit(d, org, doc, roles).deal.contracts;
              |cs| == |d.contracts| + 1 && forall i | 0 <= i < |cs| :: cs[i].authoritative <==> i == |d.contracts|
  {
    assert forall i | 0 <= i < |d.contracts| :: !FlagsCleared(d).contracts[i].authoritative;
  }

  lemma VerifyKeepsAuthority(d: Deal, org: nat, contract: nat, hasVersion: bool, key: Option<Text>, roles: seq<Role>)
    requires AtMostOneAuthoritative(d)
    ensures AtMostOneAuthoritative(Verify(d, org, contract, hasVersion, key, roles).deal)
  {
  }

  lemma StepKeepsAuthority(d: Deal, a: Action)
    requires AtMostOneAuthoritative(d)
    ensures AtMostOneAuthoritative(Handle(d, a).deal)
  {
    match a {
      case DoSubmit(org, doc, roles) => SubmitKeepsAuthority(d, org, doc, roles);
      case DoVerify(org, contract, hasVersion, key, roles) => VerifyKeepsAuthority(d, org, contract, hasVersion, key, roles);
      case _ => OnlyExecutionTouchesContracts(d, a);
    }
  }

  lemma AuthorityNext(ds: seq<Deal>, actions: seq<Action>, k: nat)
    requires Run(ds, actions) && k < |actions| && AtMostOneAuthoritative(ds[k])
    ensures AtMostOneAuthoritative(ds[k + 1])
  {
    RunStep(ds, actions, k);
    StepKeepsAuthority(ds[k], actions[k]);
  }

  /** In every run at most one executed contract is authoritative. */
  lemma {:induction false} RunKeepsAuthority(ds: seq<Deal>, actions: seq<Action>, n: nat)
    requires Run(ds, actions) && n < |ds|
    ensures AtMostOneAuthoritative(ds[n])
  {
    if n > 0 {
      RunKeepsAuthority(ds, actions, n - 1);
      AuthorityNext(ds, actions, n - 1);
    }
  }

  lemma SubmitVerifiesNothing(d: Deal, org: nat, doc: DocumentInfo, roles: seq<Role>)
    requires !HasVerifiedContract(d)
    ensures !HasVerifiedContract(Submit(d, org, doc, roles).deal)
  {
    var cs := FlagsCleared(d).contracts;
    assert forall i | 0 <= i < |cs| :: cs[i].status == d.contracts[i].status;
    assert forall i | 0 <= i < |d.contracts| :: d.contracts[i] in d.contracts;
  }

  lemma VerifyNeedsMatch(d: Deal, org: nat, contract: nat, hasVersion: bool, key: Option<Text>, roles: seq<Role>)
    requires !HasVerifiedContract(d) && HasVerifiedContract(Verify(d, org, contract, hasVersion, key, roles).deal)
    ensures d.state == EXECUTED_PENDING_VERIFICATION && d.governing.Some?
    ensures key.None? || key.value == [] || key == d.governing
  {
    if contract < |d.contracts| {
      var cs := Rejected(d, contract).contracts;
      forall i | 0 <= i < |cs| ensures cs[i].status != VERIFIED { assert d.contracts[i] in d.contracts; }
    }
  }

  /** The first verified contract of a deal comes from a verification, while it was pending, of a document
      whose requirement key is empty or is the governing reference. */
  lemma VerificationNeedsMatch(d: Deal, a: Action)
    requires !HasVerifiedContract(d) && HasVerifiedContract(Handle(d, a).deal)
    ensures a.DoVerify? && d.state == EXECUTED_PENDING_VERIFICATION
    ensures d.governing.Some? && (a.requirementKey.None? || a.requirementKey.value == [] || a.requirementKey == d.governing)
  {
    match a {
      case DoSubmit(org, doc, roles) => SubmitVerifiesNothing(d, org, doc, roles);
      case DoVerify(org, contract, hasVersion, key, roles) => VerifyNeedsMatch(d, org, contract, hasVersion, key, roles);
      case _ => OnlyExecutionTouchesContracts(d, a);
    }
  }
}
