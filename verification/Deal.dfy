/** One deal: its rows, the guards that read them, and every request that changes them. A request is
    one atomic step; one that fails may still leave some of its writes behind. */
module Deal {
  import opened Wrappers
  import opened Texts
  import opened DealTable
  import opened DealData

  // ----- Rows -----

  datatype Phase = CANDIDATE_PHASE | APPROVED_PHASE | EXECUTED_PHASE | LOCKED_PHASE

  datatype ContractStatus = PENDING_VERIFICATION | VERIFIED | REJECTED

  datatype Contract = Contract(status: ContractStatus, authoritative: bool)

  datatype DiscrepancyStatus = OPEN | ASSIGNED | RESOLVED | WAIVED

  datatype Discrepancy = Discrepancy(code: Text, status: DiscrepancyStatus)

  /** A hold on an organization, on this deal, on both, or on neither. */
  datatype Hold = Hold(org: Option<nat>, onDeal: bool, active: bool)

  datatype TaskStatus = PENDING | IN_PROGRESS | BLOCKED | DONE

  datatype Task = Task(isBlocker: bool, status: TaskStatus)

  datatype ObligationStatus = OB_PENDING | OB_IN_PROGRESS | SATISFIED | WAIVED

  datatype Obligation = Obligation(isBlocker: bool, status: ObligationStatus, dueAt: Option<int>)

  datatype LogRow = LogRow(from: State, to: State)

  /** One stored version of a data record. */
  datatype Version<S, D> = Version(number: nat, snapshot: S, fromVersion: Option<nat>, sourceState: State, material: bool, diff: D)

  /** The live record with its version number, and its version rows, oldest first. */
  datatype Track<S, D> = Track(live: Option<S>, number: nat, versions: seq<Version<S, D>>)

  datatype Deal = Deal(
    orgId: nat,
    state: State,
    phase: Phase,
    governing: Option<Text>,
    buyer: Track<Buyer, BuyerDiff>,
    vehicle: Track<Vehicle, VehicleDiff>,
    financials: Track<Financials, FinancialsDiff>,
    contracts: seq<Contract>,
    discrepancies: seq<Discrepancy>,
    holds: seq<Hold>,
    tasks: seq<Task>,
    obligations: seq<Obligation>,
    embodiments: nat,
    log: seq<LogRow>,
    validationVersion: nat)

  datatype Error =
    | NOT_FOUND | STATE_BLOCKED | ORG_HOLD | TX_HOLD | TX_STATE_HOLD | VERSION_CONFLICT | VALIDATION
    | NOOP | INVALID_TRANSITION | FORBIDDEN | NO_GOVERNING_AGREEMENT | DISCREPANCY_BLOCK
    | EXECUTION_NOT_VERIFIED | COMPLETION_BLOCKER | POST_FUNDING_BLOCKER
    | WRONG_STATE | DOC_TYPE | DOC_NOT_ACCEPTED | NO_VERSION | NO_GOVERNING | INCOMPLETE | FINAL_CLEARANCE

  /** The rows after a request, and the error it answered with, if any. */
  datatype Outcome = Outcome(deal: Deal, error: Option<Error>)

  // ----- Guards -----

  predicate HasOrgHold(d: Deal) {
    exists h | h in d.holds :: h.active && h.org == Some(d.orgId)
  }

  predicate HasDealHold(d: Deal) {
    exists h | h in d.holds :: h.active && h.onDeal
  }

  /** `assertNoActiveHold`. */
  function HoldBlock(d: Deal, leavingHold: bool): Option<Error> {
    if HasOrgHold(d) then Some(ORG_HOLD)
    else if HasDealHold(d) then Some(TX_HOLD)
    else if d.state == HOLD && !leavingHold then Some(TX_STATE_HOLD)
    else None
  }

  predicate HasOpenDiscrepancy(d: Deal) {
    exists x | x in d.discrepancies :: x.status == OPEN || x.status == ASSIGNED
  }

  predicate HasVerifiedContract(d: Deal) {
    exists c | c in d.contracts :: c.status == VERIFIED
  }

  predicate HasTaskBlocker(d: Deal) {
    exists t | t in d.tasks :: t.isBlocker && t.status != DONE
  }

  predicate IsObligationBlocker(o: Obligation) {
    o.isBlocker && (o.status == OB_PENDING || o.status == OB_IN_PROGRESS)
  }

  predicate HasObligationBlocker(d: Deal) {
    exists o | o in d.obligations :: IsObligationBlocker(o)
  }

  predicate BypassesDiscrepancyGuard(from: State, to: State) {
    || to == DISCREPANCY_RESTRICTED
    || (from == DISCREPANCY_RESTRICTED && (to == YELLOW || to == CONDITIONAL))
    || to == HOLD || to == ARCHIVED || to == PURGED
  }

  /** `getTransitionBlockReason` for the deal's own state. */
  function BlockReason(d: Deal, to: State, roles: seq<Role>): Option<Error> {
    if !Edge(d.state, to) then Some(INVALID_TRANSITION)
    else if !RoleCanUse(d.state, to, roles) then Some(FORBIDDEN)
    else if Find(d.state, to).value.def.requireGoverning && d.governing.None? then Some(NO_GOVERNING_AGREEMENT)
    else if HasOpenDiscrepancy(d) && !BypassesDiscrepancyGuard(d.state, to) then Some(DISCREPANCY_BLOCK)
    else if to == LOCKED && !HasVerifiedContract(d) then Some(EXECUTION_NOT_VERIFIED)
    else if to == LOCKED && HasTaskBlocker(d) then Some(COMPLETION_BLOCKER)
    else if to == GREEN_STAGE_2 && HasObligationBlocker(d) then Some(POST_FUNDING_BLOCKER)
    else None
  }

  /** `assertNoActiveHoldForTransition`. */
  function TransitionHoldBlock(d: Deal, to: State): Option<Error> {
    HoldBlock(d, d.state == HOLD && to == DRAFT)
  }

  // ----- State moves -----

  function MapLifecycle(to: State, current: Phase): Phase {
    if Approved(to) then APPROVED_PHASE
    else if Executed(to) then EXECUTED_PHASE
    else if to == LOCKED then LOCKED_PHASE
    else current
  }

  function Moved(d: Deal, to: State): Deal {
    d.(state := to, phase := MapLifecycle(to, d.phase), log := d.log + [LogRow(d.state, to)])
  }

  function TransitionError(d: Deal, org: nat, to: State, roles: seq<Role>): Option<Error> {
    if org != d.orgId then Some(NOT_FOUND)
    else if TransitionHoldBlock(d, to).Some? then TransitionHoldBlock(d, to)
    else if d.state == to then Some(NOOP)
    else BlockReason(d, to, roles)
  }

  /** `transitionTransaction`. */
  function Transition(d: Deal, org: nat, to: State, roles: seq<Role>): Outcome {
    var e := TransitionError(d, org, to, roles);
    if e.Some? then Outcome(d, e) else Outcome(Moved(d, to), None)
  }

  /** The target of a demotion, absent when the state is not demoted. */
  function DemotionTarget(s: State): Option<State> {
    if s == GREEN_STAGE_1 || s == APPROVED then Some(YELLOW)
    else if s == YELLOW || s == CONDITIONAL then Some(DRAFT)
    else None
  }

  /** `applyMaterialStateDemotion`: changes the state and logs it, but not the lifecycle phase. */
  function Demoted(d: Deal): Deal {
    var to := DemotionTarget(d.state);
    if to.Some? then d.(state := to.value, log := d.log + [LogRow(d.state, to.value)]) else d
  }

  // ----- Data patches -----

  predicate CanPatch(s: State) {
    !(Executed(s) || Sealed(s) || s == ARCHIVED || s == PURGED || s == HOLD)
  }

  /** The checks every patch starts with. */
  function PatchBlock(d: Deal, org: nat, current: Option<nat>, expected: Option<nat>): Option<Error> {
    if org != d.orgId then Some(NOT_FOUND)
    else if !CanPatch(d.state) then Some(STATE_BLOCKED)
    else if HoldBlock(d, false).Some? then HoldBlock(d, false)
    else if expected.Some? && current != expected then Some(VERSION_CONFLICT)
    else None
  }

  function CurrentVersion<S, D>(t: Track<S, D>): Option<nat> {
    if t.live.Some? then Some(t.number) else None
  }

  /** The live row takes the new contents and the next number, and a version row is added. */
  function Recorded<S, D>(t: Track<S, D>, s: S, source: State, material: bool, diff: D): Track<S, D> {
    var n := if t.live.Some? then t.number + 1 else 1;
    Track(Some(s), n, t.versions + [Version(n, s, CurrentVersion(t), source, material, diff)])
  }

  /** A merged record as it is stored, with what was found and recorded about it. */
  function RecordedBuyer(t: Track<Buyer, BuyerDiff>, m: Buyer, source: State): Track<Buyer, BuyerDiff> {
    Recorded(t, StoredBuyer(m), source, BuyerMaterial(t.live, m), StoredBuyerDiff(DiffBuyer(t.live, m)))
  }

  function RecordedVehicle(t: Track<Vehicle, VehicleDiff>, m: Vehicle, source: State): Track<Vehicle, VehicleDiff> {
    Recorded(t, StoredVehicle(m), source, VehicleMaterial(t.live, m), StoredVehicleDiff(DiffVehicle(t.live, m)))
  }

  function RecordedFinancials(t: Track<Financials, FinancialsDiff>, m: Financials, source: State): Track<Financials, FinancialsDiff> {
    Recorded(t, StoredFinancials(m), source, FinancialsMaterial(t.live, m), StoredFinancialsDiff(DiffFinancials(t.live, m)))
  }

  function PatchBuyer(d: Deal, org: nat, p: BuyerPatch, expected: Option<nat>, rules: seq<Rule>): Outcome {
    var e := PatchBlock(d, org, CurrentVersion(d.buyer), expected);
    if e.Some? then Outcome(d, e)
    else
      var merged := MergeBuyer(d.buyer.live, p);
      var material := BuyerMaterial(d.buyer.live, merged);
      var base := if material then Demoted(d) else d;
      Outcome(Reevaluated(base.(buyer := RecordedBuyer(d.buyer, merged, d.state)), rules), None)
  }

  function PatchVehicle(d: Deal, org: nat, p: VehiclePatch, expected: Option<nat>, rules: seq<Rule>): Outcome {
    var e := PatchBlock(d, org, CurrentVersion(d.vehicle), expected);
    if e.Some? then Outcome(d, e)
    else
      var merged := MergeVehicle(d.vehicle.live, p);
      var material := VehicleMaterial(d.vehicle.live, merged);
      var base := if material then Demoted(d) else d;
      Outcome(Reevaluated(base.(vehicle := RecordedVehicle(d.vehicle, merged, d.state)), rules), None)
  }

  function PatchFinancials(d: Deal, org: nat, p: FinancialsPatch, expected: Option<nat>, rules: seq<Rule>): Outcome {
    var e := PatchBlock(d, org, CurrentVersion(d.financials), expected);
    if e.Some? then Outcome(d, e)
    else
      var merged := MergeFinancials(d.financials.live, p);
      if merged.None? then Outcome(d, Some(VALIDATION))
      else
        var material := FinancialsMaterial(d.financials.live, merged.value);
        var base := if material then Demoted(d) else d;
        Outcome(Reevaluated(base.(financials := RecordedFinancials(d.financials, merged.value, d.state)), rules), None)
  }

  // ----- Rules -----

  datatype Expression = UNPARSED | INVALID_JSON | UNKNOWN_SPEC | MaxFinance(maxAmount: real) | LenderRequired(code: Text)

  datatype Rule = Rule(code: Text, expression: Expression)

  datatype RuleOutcome = PASS | FAIL | CONDITIONAL_OUTCOME

  /** `evaluateRuleExpression` on the stored financials. */
  function Evaluate(r: Rule, f: Option<Financials>): RuleOutcome {
    match r.expression
    case MaxFinance(max) =>
      if f.None? then CONDITIONAL_OUTCOME else if f.value.amount > max then FAIL else PASS
    case LenderRequired(code) =>
      if f.None? || OrElse(f.value.lender, []) == [] then FAIL
      else if f.value.lender != Some(code) then CONDITIONAL_OUTCOME
      else PASS
    case _ => CONDITIONAL_OUTCOME
  }

  /** One discrepancy per failed rule, unless one with the same code is open already. */
  function OpenedFor(xs: seq<Discrepancy>, rules: seq<Rule>, f: Option<Financials>): seq<Discrepancy>
    decreases |rules|
  {
    if rules == [] then xs
    else
      var r := rules[0];
      var xs' := if Evaluate(r, f) == FAIL && Discrepancy(r.code, OPEN) !in xs then xs + [Discrepancy(r.code, OPEN)] else xs;
      OpenedFor(xs', rules[1..], f)
  }

  /** `runFullRuleReevaluation`. */
  function Reevaluated(d: Deal, rules: seq<Rule>): Deal {
    d.(discrepancies := OpenedFor(d.discrepancies, rules, d.financials.live), validationVersion := d.validationVersion + 1)
  }

  // ----- Execution -----

  /** What the document lookup found. */
  datatype DocumentInfo = DocumentInfo(found: bool, isExecutedContract: bool, accepted: bool, hasVersion: bool)

  /** The flags are cleared before the new contract's own transaction, and stay cleared if that fails. */
  function FlagsCleared(d: Deal): Deal {
    d.(contracts := seq(|d.contracts|, i requires 0 <= i < |d.contracts| => d.contracts[i].(authoritative := false)))
  }

  /** `submitExecutedSourceInstrument`. */
  function Submit(d: Deal, org: nat, doc: DocumentInfo, roles: seq<Role>): Outcome {
    if org != d.orgId then Outcome(d, Some(NOT_FOUND))
    else if !(Approved(d.state) || d.state == EXECUTED_PENDING_VERIFICATION) then Outcome(d, Some(WRONG_STATE))
    else if !doc.found then Outcome(d, Some(NOT_FOUND))
    else if !doc.isExecutedContract then Outcome(d, Some(DOC_TYPE))
    else if !doc.accepted then Outcome(d, Some(DOC_NOT_ACCEPTED))
    else if !doc.hasVersion then Outcome(d, Some(NO_VERSION))
    else if d.governing.None? then Outcome(d, Some(NO_GOVERNING))
    else
      var cleared := FlagsCleared(d);
      var added := cleared.(contracts := cleared.contracts + [Contract(PENDING_VERIFICATION, true)]);
      if !Approved(d.state) then Outcome(added, None)
      else
        var moved := Transition(cleared, org, EXECUTED_PENDING_VERIFICATION, roles);
        if moved.error.Some? then Outcome(cleared, moved.error)
        else Outcome(Moved(added, EXECUTED_PENDING_VERIFICATION), None)
  }

  /** "EXECUTION_MISMATCH" */
  const EXECUTION_MISMATCH: Text := Units("EXECUTION_MISMATCH")

  /** `compareExecutionAgainstAuthoritativeData`: an empty or absent requirement key passes. */
  predicate ReferenceMatches(requirementKey: Option<Text>, reference: Text) {
    OrElse(requirementKey, []) == [] || requirementKey == Some(reference)
  }

  /** What a failed comparison writes. */
  function Rejected(d: Deal, contract: nat): Deal
    requires contract < |d.contracts|
  {
    d.(contracts := d.contracts[contract := d.contracts[contract].(status := REJECTED)],
       discrepancies := d.discrepancies + [Discrepancy(EXECUTION_MISMATCH, OPEN)])
  }

  /** `verifyExecution`. A failed comparison rejects the contract and opens a discrepancy even when the
      move to DISCREPANCY_RESTRICTED that follows is refused. */
  function Verify(d: Deal, org: nat, contract: nat, hasVersion: bool, requirementKey: Option<Text>, roles: seq<Role>): Outcome {
    if org != d.orgId then Outcome(d, Some(NOT_FOUND))
    else if d.state != EXECUTED_PENDING_VERIFICATION then Outcome(d, Some(WRONG_STATE))
    else if contract >= |d.contracts| then Outcome(d, Some(NOT_FOUND))
    else if !hasVersion then Outcome(d, Some(NO_VERSION))
    else if d.governing.None? || d.financials.live.None? || d.buyer.live.None? then Outcome(d, Some(INCOMPLETE))
    else if ReferenceMatches(requirementKey, d.governing.value) then
      Outcome(d.(contracts := d.contracts[contract := d.contracts[contract].(status := VERIFIED)]), None)
    else
      Transition(Rejected(d, contract), org, DISCREPANCY_RESTRICTED, roles)
  }

  // ----- Final clearance -----

  predicate IsOverdue(o: Obligation, now: int) {
    o.dueAt.Some? && o.status != SATISFIED && o.status != ObligationStatus.WAIVED && o.dueAt.value < now
  }

  /** The four conditions of `getFinalClearanceView` that decide, besides overdue obligations. */
  predicate HardConditions(d: Deal) {
    && (d.state == POST_FUNDING_PENDING || d.state == COMPLETED)
    && !HasOpenDiscrepancy(d)
    && !HasObligationBlocker(d)
    && !HasDealHold(d) && !HasOrgHold(d)
  }

  predicate Eligible(d: Deal, now: int) {
    d.state != GREEN_STAGE_2 && HardConditions(d) && forall o | o in d.obligations :: !IsOverdue(o, now)
  }

  /** `completeFinalClearance`. */
  function Clear(d: Deal, org: nat, roles: seq<Role>, now: int): Outcome {
    if org != d.orgId then Outcome(d, Some(NOT_FOUND))
    else if !Eligible(d, now) then Outcome(d, Some(FINAL_CLEARANCE))
    else Transition(d, org, GREEN_STAGE_2, roles)
  }

  // ----- Administrator holds -----

  /** Placing a hold on a deal overwrites its state and logs nothing. */
  function PlaceHold(d: Deal, org: nat, organizationScope: bool, onDeal: bool): Outcome {
    var d' := d.(holds := d.holds + [Hold(if organizationScope then Some(org) else None, onDeal, true)]);
    Outcome(if onDeal && org == d.orgId then d'.(state := HOLD) else d', None)
  }

  function ReleaseHold(d: Deal, org: nat, hold: nat): Outcome {
    if hold >= |d.holds| || (d.holds[hold].org.Some? && d.holds[hold].org != Some(org)) then Outcome(d, Some(NOT_FOUND))
    else
      var d' := d.(holds := d.holds[hold := d.holds[hold].(active := false)]);
      Outcome(if d.holds[hold].onDeal && org == d.orgId && d.state == HOLD then d'.(state := DRAFT) else d', None)
  }

  // ----- All requests -----

  datatype Action =
    | DoTransition(org: nat, to: State, roles: seq<Role>)
    | DoPatchBuyer(org: nat, buyerPatch: BuyerPatch, expected: Option<nat>, rules: seq<Rule>)
    | DoPatchVehicle(org: nat, vehiclePatch: VehiclePatch, expected: Option<nat>, rules: seq<Rule>)
    | DoPatchFinancials(org: nat, financialsPatch: FinancialsPatch, expected: Option<nat>, rules: seq<Rule>)
    | DoSubmit(org: nat, doc: DocumentInfo, roles: seq<Role>)
    | DoVerify(org: nat, contract: nat, hasVersion: bool, requirementKey: Option<Text>, roles: seq<Role>)
    | DoClear(org: nat, roles: seq<Role>, now: int)
    | DoPlaceHold(org: nat, organizationScope: bool, onDeal: bool)
    | DoReleaseHold(org: nat, hold: nat)
    /** Other services keep these tables; they may put anything there. */
    | DoSideTables(discrepancies: seq<Discrepancy>, tasks: seq<Task>, obligations: seq<Obligation>, embodiments: nat)

  predicate ValidAction(a: Action) {
    match a
    case DoPatchBuyer(_, p, _, _) => ValidBuyerPatch(p)
    case DoPatchVehicle(_, p, _, _) => ValidVehiclePatch(p)
    case DoPatchFinancials(_, p, _, _) => ValidFinancialsPatch(p)
    case _ => true
  }

  function Handle(d: Deal, a: Action): Outcome {
    match a
    case DoTransition(org, to, roles) => Transition(d, org, to, roles)
    case DoPatchBuyer(org, p, expected, rules) => PatchBuyer(d, org, p, expected, rules)
    case DoPatchVehicle(org, p, expected, rules) => PatchVehicle(d, org, p, expected, rules)
    case DoPatchFinancials(org, p, expected, rules) => PatchFinancials(d, org, p, expected, rules)
    case DoSubmit(org, doc, roles) => Submit(d, org, doc, roles)
    case DoVerify(org, contract, hasVersion, key, roles) => Verify(d, org, contract, hasVersion, key, roles)
    case DoClear(org, roles, now) => Clear(d, org, roles, now)
    case DoPlaceHold(org, scope, onDeal) => PlaceHold(d, org, scope, onDeal)
    case DoReleaseHold(org, hold) => ReleaseHold(d, org, hold)
    case DoSideTables(xs, ts, os, n) =>
      Outcome(d.(discrepancies := xs, tasks := ts, obligations := os, embodiments := n), None)
  }

  function EmptyTrack<S, D>(): Track<S, D> { Track(None, 0, []) }

  /** A deal as it is created. */
  predicate Created(d: Deal) {
    && d.state == DRAFT && d.phase == CANDIDATE_PHASE && d.log == [] && d.contracts == []
    && d.buyer == EmptyTrack() && d.vehicle == EmptyTrack() && d.financials == EmptyTrack()
  }

  /** Request `i` takes the deal from point `i` to point `i + 1`. */
  predicate StepAt(ds: seq<Deal>, actions: seq<Action>, i: nat)
    requires |ds| == |actions| + 1 && i < |actions|
  {
    ValidAction(actions[i]) && ds[i + 1] == Handle(ds[i], actions[i]).deal
  }

  /** A run: the deal before and after each request. */
  predicate Run(ds: seq<Deal>, actions: seq<Action>) {
    && |ds| == |actions| + 1 && Created(ds[0])
    && forall i | 0 <= i < |actions| :: StepAt(ds, actions, i)
  }

  lemma RunStep(ds: seq<Deal>, actions: seq<Action>, i: nat)
    requires Run(ds, actions) && i < |actions|
    ensures ValidAction(actions[i]) && ds[i + 1] == Handle(ds[i], actions[i]).deal
  {
    assert StepAt(ds, actions, i);
  }
}
