/** The rows of one deal as the services update them in place. Each method is tied to the request it
    serves in module Deal. */
module DealService {
  import opened Wrappers
  import opened Texts
  import opened ObjectDiff
  import opened DealTable
  import opened DealData
  import opened Deal
  import opened DealGuards

  /** One condition of the final-clearance view. */
  datatype ConditionId = TERMINAL | FUNDING_PATH | NO_DISCREPANCY | NO_BLOCKER_PFI | NO_HOLD | EMBODIMENT | OVERDUE(obligation: nat)

  datatype Condition = Condition(id: ConditionId, satisfied: bool)

  /** The conditions list obligation `i` as overdue. */
  predicate ListsOverdue(conditions: seq<Condition>, i: nat) {
    Condition(OVERDUE(i), false) in conditions
  }

  method BuyerDiffParts(before: Option<Buyer>, merged: Buyer) returns (diffParts: BuyerDiff)
    ensures diffParts == DiffBuyer(before, merged)
  {
    diffParts := BuyerInitial;
    if before.Some? {
      diffParts := BuyerDiff(None, None, None, None);
      var b := before.value;
      if b.legalName != merged.legalName { diffParts := diffParts.(legalName := Some(Change(b.legalName, merged.legalName))); }
      if b.dob != merged.dob { diffParts := diffParts.(dob := Some(Change(b.dob, merged.dob))); }
      if JsonChanged(b.address, merged.address) {
        var changes := DiffJsonObject(b.address, merged.address);
        diffParts := diffParts.(address := Some(changes));
      }
      if JsonChanged(b.identifiers, merged.identifiers) {
        var changes := DiffJsonObject(b.identifiers, merged.identifiers);
        diffParts := diffParts.(identifiers := Some(changes));
      }
    }
  }

  method VehicleDiffParts(before: Option<Vehicle>, merged: Vehicle) returns (diffParts: VehicleDiff)
    ensures diffParts == DiffVehicle(before, merged)
  {
    diffParts := VehicleInitial;
    if before.Some? {
      diffParts := VehicleDiff(None, None, None, None, None, None, None);
      var b := before.value;
      if b.vin != merged.vin { diffParts := diffParts.(vin := Some(Change(b.vin, merged.vin))); }
      if b.year != merged.year { diffParts := diffParts.(year := Some(Change(b.year, merged.year))); }
      if b.make != merged.make { diffParts := diffParts.(make := Some(Change(b.make, merged.make))); }
      if b.model != merged.model { diffParts := diffParts.(model := Some(Change(b.model, merged.model))); }
      if b.trim != merged.trim { diffParts := diffParts.(trim := Some(Change(b.trim, merged.trim))); }
      if b.mileage != merged.mileage { diffParts := diffParts.(mileage := Some(Change(b.mileage, merged.mileage))); }
      if JsonChanged(b.raw, merged.raw) { diffParts := diffParts.(raw := Some(Change(b.raw, merged.raw))); }
    }
  }

  method FinancialsDiffParts(before: Option<Financials>, merged: Financials) returns (diffParts: FinancialsDiff)
    ensures diffParts == DiffFinancials(before, merged)
  {
    diffParts := FinancialsInitial;
    if before.Some? {
      diffParts := FinancialsDiff(None, None, None, None, None);
      var b := before.value;
      if b.amount != merged.amount { diffParts := diffParts.(amount := Some(Change(b.amount, merged.amount))); }
      if b.aprBps != merged.aprBps { diffParts := diffParts.(aprBps := Some(Change(b.aprBps, merged.aprBps))); }
      if b.termMonths != merged.termMonths { diffParts := diffParts.(termMonths := Some(Change(b.termMonths, merged.termMonths))); }
      if b.lender != merged.lender { diffParts := diffParts.(lender := Some(Change(b.lender, merged.lender))); }
      if JsonChanged(b.payment, merged.payment) { diffParts := diffParts.(payment := Some(Change(b.payment, merged.payment))); }
    }
  }

  method OverdueConditions(obligations: seq<Obligation>, now: int) returns (overdue: seq<Condition>)
    ensures forall c | c in overdue :: c.id.OVERDUE? && !c.satisfied
    ensures forall i | 0 <= i < |obligations| :: ListsOverdue(overdue, i) <==> IsOverdue(obligations[i], now)
    ensures overdue == [] <==> forall o | o in obligations :: !IsOverdue(o, now)
  {
    overdue := [];
    for i := 0 to |obligations|
      invariant forall c | c in overdue :: c.id.OVERDUE? && c.id.obligation < i && !c.satisfied
      invariant forall k | 0 <= k < i :: ListsOverdue(overdue, k) <==> IsOverdue(obligations[k], now)
      invariant overdue == [] <==> forall k | 0 <= k < i :: !IsOverdue(obligations[k], now)
    {
      if IsOverdue(obligations[i], now) {
        overdue := overdue + [Condition(OVERDUE(i), false)];
      }
    }
  }

  /** Four standing conditions, an informational one, and the overdue ones after them. */
  lemma OverdueDecides(hard: seq<Condition>, info: Condition, overdue: seq<Condition>)
    requires |hard| == 4 && info.id == EMBODIMENT
    requires forall c | c in hard :: !c.id.OVERDUE? && c.id != EMBODIMENT
    requires forall c | c in overdue :: c.id.OVERDUE? && !c.satisfied
    ensures var all := hard + [info] + overdue;
            && all[..4] == hard
            && (forall i :: ListsOverdue(all, i) <==> ListsOverdue(overdue, i))
            && ((exists c | c in all :: c.id.OVERDUE? && !c.satisfied) <==> overdue != [])
            && ((forall c | c in all :: c.id != EMBODIMENT ==> c.satisfied) <==>
                overdue == [] && hard[0].satisfied && hard[1].satisfied && hard[2].satisfied && hard[3].satisfied)
  {
    var all := hard + [info] + overdue;
    assert forall c :: c in all <==> c in hard || c == info || c in overdue;
    assert overdue != [] ==> overdue[0] in all;
  }

  class DealStore {
    const orgId: nat
    const governing: Option<Text>
    var state: State
    var phase: Phase
    var profile: Option<Buyer>
    var profileVersion: nat
    var profileVersions: seq<Version<Buyer, BuyerDiff>>
    var vehicle: Option<Vehicle>
    var vehicleVersion: nat
    var vehicleVersions: seq<Version<Vehicle, VehicleDiff>>
    var financials: Option<Financials>
    var financialsVersion: nat
    var financialsVersions: seq<Version<Financials, FinancialsDiff>>
    var contracts: seq<Contract>
    var discrepancies: seq<Discrepancy>
    var holds: seq<Hold>
    var tasks: seq<Task>
    var obligations: seq<Obligation>
    var embodiments: nat
    var log: seq<LogRow>
    var validationVersion: nat

    function View(): Deal
      reads this
    {
      Deal(orgId, state, phase, governing,
           Track(profile, profileVersion, profileVersions),
           Track(vehicle, vehicleVersion, vehicleVersions),
           Track(financials, financialsVersion, financialsVersions),
           contracts, discrepancies, holds, tasks, obligations, embodiments, log, validationVersion)
    }

    constructor (orgId: nat, governing: Option<Text>, holds: seq<Hold>)
      ensures Created(View()) && this.orgId == orgId && this.governing == governing && this.holds == holds
    {
      this.orgId, this.governing, this.holds := orgId, governing, holds;
      state, phase := DRAFT, CANDIDATE_PHASE;
      profile, profileVersion, profileVersions := None, 0, [];
      vehicle, vehicleVersion, vehicleVersions := None, 0, [];
      financials, financialsVersion, financialsVersions := None, 0, [];
      contracts, discrepancies, tasks, obligations, embodiments := [], [], [], [], 0;
      log, validationVersion := [], 0;
    }

    // ----- State moves -----

    method TransitionTransaction(org: nat, to: State, roles: seq<Role>) returns (error: Option<Error>)
      modifies `state, `phase, `log
      ensures Outcome(View(), error) == Transition(old(View()), org, to, roles)
    {
      if org != orgId { return Some(NOT_FOUND); }
      var hold := TransitionHoldBlock(View(), to);
      if hold.Some? { return hold; }
      var from := state;
      if from == to { return Some(NOOP); }
      BlockCoversEdgeAndRole(View(), to, roles);
      if !Edge(from, to) { return Some(INVALID_TRANSITION); }
      if !RoleCanUse(from, to, roles) { return Some(FORBIDDEN); }
      var block := BlockReason(View(), to, roles);
      if block.Some? { return block; }
      state, phase := to, MapLifecycle(to, phase);
      log := log + [LogRow(from, to)];
      return None;
    }

    /** Every target with the reason that blocks it; the source sorts the list by name afterwards. */
    method GetAllowedNextStates(org: nat, roles: seq<Role>) returns (error: Option<Error>, listed: map<State, Option<Error>>)
      ensures error == if org == orgId then None else Some(NOT_FOUND)
      ensures error.None? ==> listed == Listing(View(), roles)
    {
      listed := map[];
      if org != orgId { return Some(NOT_FOUND), listed; }
      var rest := CandidateTargets(state);
      while rest != {}
        invariant forall to :: Edge(state, to) <==> to in rest || to in listed
        invariant forall to | to in listed :: listed[to] == BlockReason(View(), to, roles)
        decreases |rest|
      {
        var to :| to in rest;
        var r := BlockReason(View(), to, roles);
        listed := listed[to := r];
        rest := rest - {to};
      }
      return None, listed;
    }

    method ApplyMaterialStateDemotion(from: State) returns (to: Option<State>)
      modifies `state, `log
      ensures to == DemotionTarget(from)
      ensures from == old(state) ==> View() == Demoted(old(View()))
    {
      to := None;
      if from == GREEN_STAGE_1 || from == APPROVED { to := Some(YELLOW); }
      else if from == YELLOW || from == CONDITIONAL { to := Some(DRAFT); }
      else { return; }
      state := to.value;
      log := log + [LogRow(from, to.value)];
    }

    // ----- Rules -----

    method RunFullRuleReevaluation(rules: seq<Rule>)
      modifies `discrepancies, `validationVersion
      ensures View() == Reevaluated(old(View()), rules)
    {
      assert rules[0..] == rules;
      for i := 0 to |rules|
        invariant OpenedFor(discrepancies, rules[i..], financials) == OpenedFor(old(discrepancies), rules, financials)
        invariant validationVersion == old(validationVersion)
      {
        assert rules[i..][1..] == rules[i + 1..];
        var outcome := Evaluate(rules[i], financials);
        if outcome == FAIL {
          var code := rules[i].code;
          if Discrepancy(code, OPEN) !in discrepancies {
            discrepancies := discrepancies + [Discrepancy(code, OPEN)];
          }
        }
      }
      validationVersion := validationVersion + 1;
    }

    // ----- Data patches; a record and a diff are stored as their columns will return them -----

    method StoreBuyer(merged: Buyer, sourceState: State, material: bool, diffParts: BuyerDiff)
      modifies `profile, `profileVersion, `profileVersions
      ensures View() == old(View()).(buyer := Recorded(old(View()).buyer, StoredBuyer(merged), sourceState, material, StoredBuyerDiff(diffParts)))
    {
      var fromVersion := if profile.Some? then Some(profileVersion) else None;
      var nextVersion := if profile.Some? then profileVersion + 1 else 1;
      var s := StoredBuyer(merged);
      profile, profileVersion := Some(s), nextVersion;
      profileVersions := profileVersions + [Version(nextVersion, s, fromVersion, sourceState, material, StoredBuyerDiff(diffParts))];
    }

    method PatchBuyerProfile(org: nat, patch: BuyerPatch, expected: Option<nat>, rules: seq<Rule>)
      returns (error: Option<Error>, demoted: bool)
      modifies this
      ensures Outcome(View(), error) == PatchBuyer(old(View()), org, patch, expected, rules)
      ensures demoted == (state != old(state))
    {
      demoted := false;
      var version := if profile.Some? then Some(profileVersion) else None;
      error := PatchBlock(View(), org, version, expected);
      if error.Some? { return; }
      var before := profile;
      var merged := MergeBuyer(before, patch);
      var material := BuyerMaterial(before, merged);
      var diffParts := BuyerDiffParts(before, merged);
      var sourceState := state;
      if material {
        var newState := ApplyMaterialStateDemotion(sourceState);
        demoted := newState.Some?;
      }
      StoreBuyer(merged, sourceState, material, diffParts);
      RunFullRuleReevaluation(rules);
    }

    method StoreVehicle(merged: Vehicle, sourceState: State, material: bool, diffParts: VehicleDiff)
      modifies `vehicle, `vehicleVersion, `vehicleVersions
      ensures View() == old(View()).(vehicle := Recorded(old(View()).vehicle, StoredVehicle(merged), sourceState, material, StoredVehicleDiff(diffParts)))
    {
      var fromVersion := if vehicle.Some? then Some(vehicleVersion) else None;
      var nextVersion := if vehicle.Some? then vehicleVersion + 1 else 1;
      var s := StoredVehicle(merged);
      vehicle, vehicleVersion := Some(s), nextVersion;
      vehicleVersions := vehicleVersions + [Version(nextVersion, s, fromVersion, sourceState, material, StoredVehicleDiff(diffParts))];
    }

    method PatchVehicleRecord(org: nat, patch: VehiclePatch, expected: Option<nat>, rules: seq<Rule>)
      returns (error: Option<Error>, demoted: bool)
      modifies this
      ensures Outcome(View(), error) == PatchVehicle(old(View()), org, patch, expected, rules)
      ensures demoted == (state != old(state))
    {
      demoted := false;
      var version := if vehicle.Some? then Some(vehicleVersion) else None;
      error := PatchBlock(View(), org, version, expected);
      if error.Some? { return; }
      var before := vehicle;
      var merged := MergeVehicle(before, patch);
      var material := VehicleMaterial(before, merged);
      var diffParts := VehicleDiffParts(before, merged);
      var sourceState := state;
      if material {
        var newState := ApplyMaterialStateDemotion(sourceState);
        demoted := newState.Some?;
      }
      StoreVehicle(merged, sourceState, material, diffParts);
      RunFullRuleReevaluation(rules);
    }

    method StoreFinancials(merged: Financials, sourceState: State, material: bool, diffParts: FinancialsDiff)
      modifies `financials, `financialsVersion, `financialsVersions
      ensures View() == old(View()).(financials := Recorded(old(View()).financials, StoredFinancials(merged), sourceState, material, StoredFinancialsDiff(diffParts)))
    {
      var fromVersion := if financials.Some? then Some(financialsVersion) else None;
      var nextVersion := if financials.Some? then financialsVersion + 1 else 1;
      var s := StoredFinancials(merged);
      financials, financialsVersion := Some(s), nextVersion;
      financialsVersions := financialsVersions + [Version(nextVersion, s, fromVersion, sourceState, material, StoredFinancialsDiff(diffParts))];
    }

    method PatchDealFinancials(org: nat, patch: FinancialsPatch, expected: Option<nat>, rules: seq<Rule>)
      returns (error: Option<Error>, demoted: bool)
      modifies this
      ensures Outcome(View(), error) == PatchFinancials(old(View()), org, patch, expected, rules)
      ensures demoted == (state != old(state))
    {
      demoted := false;
      var version := if financials.Some? then Some(financialsVersion) else None;
      error := PatchBlock(View(), org, version, expected);
      if error.Some? { return; }
      var before := financials;
      var checked := MergeFinancials(before, patch);
      if checked.None? { return Some(VALIDATION), false; }
      var merged := checked.value;
      var material := FinancialsMaterial(before, merged);
      var diffParts := FinancialsDiffParts(before, merged);
      var sourceState := state;
      if material {
        var newState := ApplyMaterialStateDemotion(sourceState);
        demoted := newState.Some?;
      }
      StoreFinancials(merged, sourceState, material, diffParts);
      RunFullRuleReevaluation(rules);
    }

    // ----- Execution -----

    /** The new contract is in a database transaction with the state change; the cleared flags are not. */
    method SubmitExecutedSourceInstrument(org: nat, doc: DocumentInfo, roles: seq<Role>) returns (error: Option<Error>)
      modifies `state, `phase, `log, `contracts
      ensures Outcome(View(), error) == Submit(old(View()), org, doc, roles)
    {
      if org != orgId { return Some(NOT_FOUND); }
      if !(Approved(state) || state == EXECUTED_PENDING_VERIFICATION) { return Some(WRONG_STATE); }
      if !doc.found { return Some(NOT_FOUND); }
      if !doc.isExecutedContract { return Some(DOC_TYPE); }
      if !doc.accepted { return Some(DOC_NOT_ACCEPTED); }
      if !doc.hasVersion { return Some(NO_VERSION); }
      if governing.None? { return Some(NO_GOVERNING); }
      contracts := FlagsCleared(View()).contracts;
      var before := contracts;
      if Approved(state) {
        error := TransitionTransaction(org, EXECUTED_PENDING_VERIFICATION, roles);
        if error.Some? {
          contracts := before;
          return;
        }
      }
      contracts := contracts + [Contract(PENDING_VERIFICATION, true)];
      error := None;
    }

    method VerifyExecution(org: nat, contract: nat, hasVersion: bool, requirementKey: Option<Text>, roles: seq<Role>)
      returns (error: Option<Error>)
      modifies `state, `phase, `log, `contracts, `discrepancies
      ensures Outcome(View(), error) == Verify(old(View()), org, contract, hasVersion, requirementKey, roles)
    {
      if org != orgId { return Some(NOT_FOUND); }
      if state != EXECUTED_PENDING_VERIFICATION { return Some(WRONG_STATE); }
      if contract >= |contracts| { return Some(NOT_FOUND); }
      if !hasVersion { return Some(NO_VERSION); }
      if governing.None? || financials.None? || profile.None? { return Some(INCOMPLETE); }
      if ReferenceMatches(requirementKey, governing.value) {
        contracts := contracts[contract := contracts[contract].(status := VERIFIED)];
        return None;
      }
      contracts := contracts[contract := contracts[contract].(status := REJECTED)];
      discrepancies := discrepancies + [Discrepancy(EXECUTION_MISMATCH, OPEN)];
      error := TransitionTransaction(org, DISCREPANCY_RESTRICTED, roles);
    }

    // ----- Final clearance -----

    /** The conditions of the view, the overdue obligations one by one. */
    method GetFinalClearanceView(org: nat, now: int) returns (error: Option<Error>, eligible: bool, conditions: seq<Condition>)
      ensures error == if org == orgId then None else Some(NOT_FOUND)
      ensures error.None? ==> eligible == Eligible(View(), now)
      ensures error.None? && state != GREEN_STAGE_2 ==>
                eligible == (forall c | c in conditions :: c.id != EMBODIMENT ==> c.satisfied)
      ensures error.None? && state != GREEN_STAGE_2 ==>
                forall i | 0 <= i < |obligations| :: ListsOverdue(conditions, i) <==> IsOverdue(obligations[i], now)
    {
      conditions, eligible := [], false;
      if org != orgId { return Some(NOT_FOUND), eligible, conditions; }
      if state == GREEN_STAGE_2 { return None, eligible, [Condition(TERMINAL, true)]; }
      var d := View();
      var hard := [Condition(FUNDING_PATH, state == POST_FUNDING_PENDING || state == COMPLETED),
                   Condition(NO_DISCREPANCY, !HasOpenDiscrepancy(d)),
                   Condition(NO_BLOCKER_PFI, !HasObligationBlocker(d)),
                   Condition(NO_HOLD, !(HasDealHold(d) || HasOrgHold(d)))];
      conditions := hard + [Condition(EMBODIMENT, embodiments > 0)];
      var overdue := OverdueConditions(obligations, now);
      OverdueDecides(hard, conditions[4], overdue);
      assert conditions == hard + [conditions[4]];
      conditions := conditions + overdue;
      var anyOverdue := exists c | c in conditions :: c.id.OVERDUE? && !c.satisfied;
      eligible := conditions[0].satisfied && conditions[1].satisfied && conditions[2].satisfied && conditions[3].satisfied && !anyOverdue;
      return None, eligible, conditions;
    }

    method CompleteFinalClearance(org: nat, roles: seq<Role>, now: int) returns (error: Option<Error>)
      modifies `state, `phase, `log
      ensures Outcome(View(), error) == Clear(old(View()), org, roles, now)
    {
      var refused, eligible, _ := GetFinalClearanceView(org, now);
      if refused.Some? { return refused; }
      if !eligible { return Some(FINAL_CLEARANCE); }
      error := TransitionTransaction(org, GREEN_STAGE_2, roles);
    }

    // ----- Administrator holds -----

    method PlaceHoldOn(org: nat, organizationScope: bool, onDeal: bool)
      modifies `holds, `state
      ensures View() == PlaceHold(old(View()), org, organizationScope, onDeal).deal
    {
      holds := holds + [Hold(if organizationScope then Some(org) else None, onDeal, true)];
      if onDeal && org == orgId { state := HOLD; }
    }

    method ReleaseHoldOf(org: nat, hold: nat) returns (error: Option<Error>)
      modifies `holds, `state
      ensures Outcome(View(), error) == ReleaseHold(old(View()), org, hold)
    {
      if hold >= |holds| || (holds[hold].org.Some? && holds[hold].org != Some(org)) { return Some(NOT_FOUND); }
      holds := holds[hold := holds[hold].(active := false)];
      if holds[hold].onDeal && org == orgId && state == HOLD { state := DRAFT; }
      return None;
    }
  }
}
