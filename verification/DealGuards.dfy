/** The guards as a caller sees them: what the list of next states and the final-clearance view promise
    about the request that follows. */
module DealGuards {
  import opened Wrappers
  import opened Texts
  import opened DealTable
  import opened DealData
  import opened Deal

  /** What `getAllowedNextStates` lists: each state one edge away, with the reason that blocks it. */
  function Listing(d: Deal, roles: seq<Role>): map<State, Option<Error>> {
    map to | Edge(d.state, to) :: BlockReason(d, to, roles)
  }

  /** The state is listed as allowed. */
  predicate ListedAllowed(d: Deal, to: State, roles: seq<Role>) {
    to in Listing(d, roles) && Listing(d, roles)[to].None?
  }

  lemma TransitionSucceeds(d: Deal, org: nat, to: State, roles: seq<Role>)
    ensures Transition(d, org, to, roles).error.None? <==>
            org == d.orgId && TransitionHoldBlock(d, to).None? && BlockReason(d, to, roles).None?
  {
    if Edge(d.state, to) { EdgesAreOrdered(d.state, to); }
  }

  /** The first two block reasons are the checks the transition makes itself. */
  lemma BlockCoversEdgeAndRole(d: Deal, to: State, roles: seq<Role>)
    ensures !Edge(d.state, to) ==> BlockReason(d, to, roles) == Some(INVALID_TRANSITION)
    ensures Edge(d.state, to) && !RoleCanUse(d.state, to, roles) ==> BlockReason(d, to, roles) == Some(FORBIDDEN)
  {
  }

  /** A transition succeeds if and only if the list shows its target as allowed and the hold check passes. */
  lemma GuardAgreement(d: Deal, org: nat, to: State, roles: seq<Role>)
    ensures Transition(d, org, to, roles).error.None? <==>
            org == d.orgId && ListedAllowed(d, to, roles) && TransitionHoldBlock(d, to).None?
    ensures Transition(d, org, to, roles).error.None? ==> Transition(d, org, to, roles).deal == Moved(d, to)
  {
    TransitionSucceeds(d, org, to, roles);
  }

  /** A deal frozen in HOLD can only be moved to DRAFT, and not while a hold is active. */
  lemma HoldFreezes(d: Deal, org: nat, to: State, roles: seq<Role>)
    requires d.state == HOLD
    ensures Transition(d, org, to, roles).error.None? ==> to == DRAFT && !HasOrgHold(d) && !HasDealHold(d)
  {
  }

  // ----- Final clearance -----

  /** Who may take the last step, from each of the two states before it. */
  predicate ClearanceRole(from: State, roles: seq<Role>) {
    || (from == POST_FUNDING_PENDING && (COMPLIANCE_OFFICER in roles || FINANCE_MANAGER in roles || ADMIN in roles))
    || (from == COMPLETED && (COMPLIANCE_OFFICER in roles || ADMIN in roles))
  }

  lemma RowsIntoGreenStage2(i: nat)
    requires i < |DEAL_TRANSITIONS| && DEAL_TRANSITIONS[i].to == GREEN_STAGE_2
    ensures i == 29 || i == 30
  {
  }

  const FROM_FUNDING := Def(Only({COMPLIANCE_OFFICER, FINANCE_MANAGER, ADMIN}), false)

  const FROM_COMPLETED := Def(Only({COMPLIANCE_OFFICER, ADMIN}), false)

  lemma GreenStage2Rows()
    ensures DEAL_TRANSITIONS[29] == TransitionRow(POST_FUNDING_PENDING, GREEN_STAGE_2, FROM_FUNDING)
    ensures DEAL_TRANSITIONS[30] == TransitionRow(COMPLETED, GREEN_STAGE_2, FROM_COMPLETED)
  {
  }

  lemma ClearanceDefs(from: State)
    ensures Edge(from, GREEN_STAGE_2) <==> from == POST_FUNDING_PENDING || from == COMPLETED
    ensures from == POST_FUNDING_PENDING ==> Find(from, GREEN_STAGE_2).value.def == FROM_FUNDING
    ensures from == COMPLETED ==> Find(from, GREEN_STAGE_2).value.def == FROM_COMPLETED
  {
    GreenStage2Rows();
    var found := Find(from, GREEN_STAGE_2);
    if found.Some? {
      var i :| 0 <= i < |DEAL_TRANSITIONS| && DEAL_TRANSITIONS[i] == found.value;
      RowsIntoGreenStage2(i);
    }
  }

  lemma ClearanceEdges(from: State, roles: seq<Role>)
    ensures RoleCanUse(from, GREEN_STAGE_2, roles) <==> ClearanceRole(from, roles)
    ensures Edge(from, GREEN_STAGE_2) ==>
              !Find(from, GREEN_STAGE_2).value.def.requireGoverning && (from == POST_FUNDING_PENDING || from == COMPLETED)
  {
    ClearanceDefs(from);
  }

  /** A transition to GREEN_STAGE_2 succeeds if and only if the four hard conditions of
      the clearance view hold and the role is permitted. */
  lemma GreenStage2NeedsHardConditions(d: Deal, org: nat, roles: seq<Role>)
    ensures Transition(d, org, GREEN_STAGE_2, roles).error.None? <==>
            org == d.orgId && HardConditions(d) && ClearanceRole(d.state, roles)
  {
    ClearanceEdges(d.state, roles);
  }

  /** The clearance request succeeds if and only if the view says eligible and the role is permitted. */
  lemma ClearanceAgreement(d: Deal, org: nat, roles: seq<Role>, now: int)
    ensures Clear(d, org, roles, now).error.None? <==>
            org == d.orgId && Eligible(d, now) && ClearanceRole(d.state, roles)
  {
    GreenStage2NeedsHardConditions(d, org, roles);
  }

  /** The request is a transition to GREEN_STAGE_2, or a clearance with nothing overdue. */
  predicate AsksForGreenStage2(d: Deal, a: Action) {
    (a.DoTransition? && a.to == GREEN_STAGE_2) || (a.DoClear? && forall o | o in d.obligations :: !IsOverdue(o, a.now))
  }

  lemma PatchesDoNotClear(d: Deal, a: Action)
    requires d.state != GREEN_STAGE_2 && (a.DoPatchBuyer? || a.DoPatchVehicle? || a.DoPatchFinancials?)
    ensures Handle(d, a).deal.state != GREEN_STAGE_2
  {
  }

  lemma ExecutionDoesNotClear(d: Deal, a: Action)
    requires d.state != GREEN_STAGE_2 && (a.DoSubmit? || a.DoVerify?)
    ensures Handle(d, a).deal.state != GREEN_STAGE_2
  {
  }

  lemma HoldsDoNotClear(d: Deal, a: Action)
    requires d.state != GREEN_STAGE_2 && (a.DoPlaceHold? || a.DoReleaseHold? || a.DoSideTables?)
    ensures Handle(d, a).deal.state != GREEN_STAGE_2
  {
  }

  /** Of all requests, the one that brings a deal into GREEN_STAGE_2 is a transition to it, or a clearance with
      nothing overdue, in the deal's organization, under the four hard conditions, by a permitted role. */
  lemma GreenStage2IsEarned(d: Deal, a: Action)
    requires d.state != GREEN_STAGE_2
    ensures Handle(d, a).deal.state == GREEN_STAGE_2 <==>
            AsksForGreenStage2(d, a) && a.org == d.orgId && HardConditions(d) && ClearanceRole(d.state, a.roles)
  {
    match a {
      case DoTransition(org, to, roles) => GreenStage2NeedsHardConditions(d, org, roles);
      case DoClear(org, roles, now) => ClearanceAgreement(d, org, roles, now);
      case DoSubmit(_, _, _) => ExecutionDoesNotClear(d, a);
      case DoVerify(_, _, _, _, _) => ExecutionDoesNotClear(d, a);
      case _ => if a.DoPlaceHold? || a.DoReleaseHold? || a.DoSideTables? { HoldsDoNotClear(d, a); } else { PatchesDoNotClear(d, a); }
    }
  }

  predicate HasOverdue(d: Deal, now: int) {
    exists o | o in d.obligations :: IsOverdue(o, now)
  }

  /** The plain transition reaches GREEN_STAGE_2 where the clearance request refuses, exactly when an
      obligation is overdue: the transition guard does not look at due dates. */
  lemma TransitionIgnoresOverdue(d: Deal, org: nat, roles: seq<Role>, now: int)
    ensures Transition(d, org, GREEN_STAGE_2, roles).error.None? && Clear(d, org, roles, now).error.Some? <==>
            org == d.orgId && HardConditions(d) && ClearanceRole(d.state, roles) && HasOverdue(d, now)
  {
    GreenStage2NeedsHardConditions(d, org, roles);
    ClearanceAgreement(d, org, roles, now);
  }

  // ----- Approval and lock -----

  const APPROVAL := Def(Only({FINANCE_MANAGER, COMPLIANCE_OFFICER, ADMIN}), true)

  const LOCKING := Def(Only({COMPLIANCE_OFFICER, ADMIN}), true)

  lemma RowsIntoApproval(i: nat)
    requires i < |DEAL_TRANSITIONS| && Approved(DEAL_TRANSITIONS[i].to)
    ensures DEAL_TRANSITIONS[i].def == APPROVAL
  {
  }

  lemma RowsIntoLock(i: nat)
    requires i < |DEAL_TRANSITIONS| && DEAL_TRANSITIONS[i].to == LOCKED
    ensures DEAL_TRANSITIONS[i].def == LOCKING
  {
  }

  lemma ApprovalIsInTable(from: State, to: State)
    requires (from == YELLOW || from == CONDITIONAL) && Approved(to)
    ensures Edge(from, to)
  {
    assert DEAL_TRANSITIONS[11].from == DEAL_TRANSITIONS[12].from == YELLOW;
    assert DEAL_TRANSITIONS[13].from == DEAL_TRANSITIONS[14].from == CONDITIONAL;
    assert DEAL_TRANSITIONS[11].to == DEAL_TRANSITIONS[13].to == GREEN_STAGE_1;
    assert DEAL_TRANSITIONS[12].to == DEAL_TRANSITIONS[14].to == APPROVED;
  }

  lemma LockIsInTable(from: State)
    requires Executed(from)
    ensures Edge(from, LOCKED)
  {
    assert DEAL_TRANSITIONS[21].from == EXECUTED && DEAL_TRANSITIONS[22].from == EXECUTED_PENDING_VERIFICATION;
    assert DEAL_TRANSITIONS[21].to == DEAL_TRANSITIONS[22].to == LOCKED;
  }

  lemma ApprovalDef(from: State, to: State)
    requires Approved(to)
    ensures Edge(from, to) <==> from == YELLOW || from == CONDITIONAL
    ensures Edge(from, to) ==> Find(from, to).value.def == APPROVAL
  {
    if from == YELLOW || from == CONDITIONAL { ApprovalIsInTable(from, to); }
    if Edge(from, to) {
      EdgesAreOrdered(from, to);
      var i :| 0 <= i < |DEAL_TRANSITIONS| && DEAL_TRANSITIONS[i] == Find(from, to).value;
      RowsIntoApproval(i);
    }
  }

  lemma LockDef(from: State)
    ensures Edge(from, LOCKED) <==> Executed(from)
    ensures Edge(from, LOCKED) ==> Find(from, LOCKED).value.def == LOCKING
  {
    if Executed(from) { LockIsInTable(from); }
    if Edge(from, LOCKED) {
      EdgesAreOrdered(from, LOCKED);
      var i :| 0 <= i < |DEAL_TRANSITIONS| && DEAL_TRANSITIONS[i] == Find(from, LOCKED).value;
      RowsIntoLock(i);
    }
  }

  lemma ApprovalRoles(roles: seq<Role>)
    ensures Matches(APPROVAL.users, roles) <==> FINANCE_MANAGER in roles || COMPLIANCE_OFFICER in roles || ADMIN in roles
  {
  }

  /** What is left of the block reasons on an edge that needs the governing agreement. */
  lemma GoverningBlock(d: Deal, to: State, roles: seq<Role>)
    requires Edge(d.state, to) && Find(d.state, to).value.def.requireGoverning
    requires to != LOCKED && to != GREEN_STAGE_2 && !BypassesDiscrepancyGuard(d.state, to)
    ensures BlockReason(d, to, roles).None? <==> RoleCanUse(d.state, to, roles) && d.governing.Some? && !HasOpenDiscrepancy(d)
  {
  }

  /** A deal is approved if and only if it was validated, has its governing agreement, no open discrepancy and
      no hold, and a permitted role asks. */
  lemma ApprovalConditions(d: Deal, org: nat, to: State, roles: seq<Role>)
    requires Approved(to)
    ensures Transition(d, org, to, roles).error.None? <==>
            && org == d.orgId && (d.state == YELLOW || d.state == CONDITIONAL) && d.governing.Some?
            && !HasOpenDiscrepancy(d) && !HasOrgHold(d) && !HasDealHold(d)
            && (FINANCE_MANAGER in roles || COMPLIANCE_OFFICER in roles || ADMIN in roles)
  {
    TransitionSucceeds(d, org, to, roles);
    ApprovalDef(d.state, to);
    if Edge(d.state, to) {
      ApprovalRoles(roles);
      GoverningBlock(d, to, roles);
    }
  }

  /** A deal is locked if and only if it was executed, some executed contract is verified, no blocker task,
      open discrepancy or hold remains, and a permitted role asks. */
  lemma LockConditions(d: Deal, org: nat, roles: seq<Role>)
    ensures Transition(d, org, LOCKED, roles).error.None? <==>
            && org == d.orgId && Executed(d.state) && d.governing.Some? && HasVerifiedContract(d)
            && !HasTaskBlocker(d) && !HasOpenDiscrepancy(d) && !HasOrgHold(d) && !HasDealHold(d)
            && (COMPLIANCE_OFFICER in roles || ADMIN in roles)
  {
    LockDef(d.state);
  }

  lemma DiscrepancyBlocks(d: Deal, to: State, roles: seq<Role>)
    requires HasOpenDiscrepancy(d) && !BypassesDiscrepancyGuard(d.state, to)
    ensures BlockReason(d, to, roles).Some?
  {
  }

  /** An open discrepancy stops every way into an approved, executed or sealed state. */
  lemma DiscrepancyStopsProgress(d: Deal, org: nat, to: State, roles: seq<Role>)
    requires HasOpenDiscrepancy(d) && (Approved(to) || Executed(to) || Sealed(to))
    ensures Transition(d, org, to, roles).error.Some?
  {
    TransitionSucceeds(d, org, to, roles);
    DiscrepancyBlocks(d, to, roles);
  }

  // ----- Under a hold -----

  predicate IsPatch(a: Action) { a.DoPatchBuyer? || a.DoPatchVehicle? || a.DoPatchFinancials? }

  lemma HoldStopsPatches(d: Deal, a: Action)
    requires (HasOrgHold(d) || HasDealHold(d)) && IsPatch(a)
    ensures Handle(d, a).error.Some? && Handle(d, a).deal == d
  {
  }

  lemma HoldKeepsState(d: Deal, a: Action)
    requires (HasOrgHold(d) || HasDealHold(d)) && (a.DoVerify? || a.DoSubmit?)
    ensures Handle(d, a).deal.state == d.state
    ensures a.DoSubmit? && Handle(d, a).error.None? ==> d.state == EXECUTED_PENDING_VERIFICATION
  {
  }

  /** While a hold is active no transition, data patch or clearance succeeds and the state does not move.
      Verifying, and resubmitting while verification is pending, are not stopped. */
  lemma HoldStopsWork(d: Deal, a: Action)
    requires HasOrgHold(d) || HasDealHold(d)
    ensures a.DoTransition? || a.DoClear? || IsPatch(a) ==> Handle(d, a).error.Some? && Handle(d, a).deal == d
    ensures a.DoVerify? || a.DoSubmit? ==> Handle(d, a).deal.state == d.state
    ensures a.DoSubmit? && Handle(d, a).error.None? ==> d.state == EXECUTED_PENDING_VERIFICATION
  {
    if IsPatch(a) {
      HoldStopsPatches(d, a);
    } else if a.DoVerify? || a.DoSubmit? {
      HoldKeepsState(d, a);
    }
  }

  lemma HoldsAfterRelease(d: Deal, scope: bool)
    ensures var d' := ReleaseHold(PlaceHold(d, d.orgId, scope, true).deal, d.orgId, |d.holds|).deal;
            d'.holds == d.holds + [Hold(if scope then Some(d.orgId) else None, true, false)]
  {
  }

  lemma InactiveHoldChangesNothing(d: Deal, d': Deal, h: Hold)
    requires d'.orgId == d.orgId && d'.holds == d.holds + [h] && !h.active
    ensures HasOrgHold(d') == HasOrgHold(d) && HasDealHold(d') == HasDealHold(d)
  {
  }

  /** A hold placed on a deal and released again leaves it in DRAFT whatever its state was, a locked one too,
      while its phase stays; its data can then be patched if and only if no other hold is active. */
  lemma HoldReopensTheDeal(d: Deal, scope: bool, p: BuyerPatch, rules: seq<Rule>)
    ensures var d' := ReleaseHold(PlaceHold(d, d.orgId, scope, true).deal, d.orgId, |d.holds|).deal;
            && d'.state == DRAFT && d'.phase == d.phase && d'.log == d.log
            && (PatchBuyer(d', d.orgId, p, None, rules).error.None? <==> !HasOrgHold(d) && !HasDealHold(d))
  {
    var d' := ReleaseHold(PlaceHold(d, d.orgId, scope, true).deal, d.orgId, |d.holds|).deal;
    HoldsAfterRelease(d, scope);
    InactiveHoldChangesNothing(d, d', Hold(if scope then Some(d.orgId) else None, true, false));
  }

  // ----- Requests that fail half way -----

  predicate FailsHalfWay(d: Deal, o: Outcome) { o.error.Some? && o.deal != d }

  const SUBMISSION := Def(Only({FINANCE_MANAGER, ADMIN}), true)

  const RESTRICTION := Def(Only({COMPLIANCE_OFFICER, ADMIN}), false)

  lemma RowsIntoVerification(i: nat)
    requires i < |DEAL_TRANSITIONS| && DEAL_TRANSITIONS[i].to == EXECUTED_PENDING_VERIFICATION
    ensures DEAL_TRANSITIONS[i].def == SUBMISSION
  {
  }

  lemma RowsIntoRestriction(i: nat)
    requires i < |DEAL_TRANSITIONS| && DEAL_TRANSITIONS[i].to == DISCREPANCY_RESTRICTED
    ensures DEAL_TRANSITIONS[i].def == RESTRICTION
  {
  }

  lemma VerificationIsInTable()
    ensures Edge(GREEN_STAGE_1, EXECUTED_PENDING_VERIFICATION) && Edge(APPROVED, EXECUTED_PENDING_VERIFICATION)
    ensures Edge(EXECUTED_PENDING_VERIFICATION, DISCREPANCY_RESTRICTED)
  {
    assert DEAL_TRANSITIONS[17].from == GREEN_STAGE_1 && DEAL_TRANSITIONS[17].to == EXECUTED_PENDING_VERIFICATION;
    assert DEAL_TRANSITIONS[19].from == APPROVED && DEAL_TRANSITIONS[19].to == EXECUTED_PENDING_VERIFICATION;
    assert DEAL_TRANSITIONS[24].from == EXECUTED_PENDING_VERIFICATION && DEAL_TRANSITIONS[24].to == DISCREPANCY_RESTRICTED;
  }

  lemma SubmissionDef(from: State)
    requires Approved(from)
    ensures Edge(from, EXECUTED_PENDING_VERIFICATION) && Find(from, EXECUTED_PENDING_VERIFICATION).value.def == SUBMISSION
  {
    VerificationIsInTable();
    var found := Find(from, EXECUTED_PENDING_VERIFICATION);
    var i :| 0 <= i < |DEAL_TRANSITIONS| && DEAL_TRANSITIONS[i] == found.value;
    RowsIntoVerification(i);
  }

  lemma SubmissionEdge(from: State, roles: seq<Role>)
    requires Approved(from)
    ensures RoleCanUse(from, EXECUTED_PENDING_VERIFICATION, roles) <==> FINANCE_MANAGER in roles || ADMIN in roles
  {
    SubmissionDef(from);
  }

  lemma RestrictionDef()
    ensures Edge(EXECUTED_PENDING_VERIFICATION, DISCREPANCY_RESTRICTED)
    ensures Find(EXECUTED_PENDING_VERIFICATION, DISCREPANCY_RESTRICTED).value.def == RESTRICTION
  {
    VerificationIsInTable();
    var found := Find(EXECUTED_PENDING_VERIFICATION, DISCREPANCY_RESTRICTED);
    var i :| 0 <= i < |DEAL_TRANSITIONS| && DEAL_TRANSITIONS[i] == found.value;
    RowsIntoRestriction(i);
  }

  lemma RestrictionEdge(roles: seq<Role>)
    ensures Edge(EXECUTED_PENDING_VERIFICATION, DISCREPANCY_RESTRICTED)
    ensures RoleCanUse(EXECUTED_PENDING_VERIFICATION, DISCREPANCY_RESTRICTED, roles) <==> COMPLIANCE_OFFICER in roles || ADMIN in roles
    ensures !Find(EXECUTED_PENDING_VERIFICATION, DISCREPANCY_RESTRICTED).value.def.requireGoverning
  {
    RestrictionDef();
  }

  /** The document and the deal are fit for submission. */
  predicate Submittable(d: Deal, org: nat, doc: DocumentInfo) {
    org == d.orgId && Approved(d.state) && doc.found && doc.isExecutedContract && doc.accepted && doc.hasVersion && d.governing.Some?
  }

  predicate HasAuthoritative(d: Deal) {
    exists c | c in d.contracts :: c.authoritative
  }

  lemma ClearingChangesSomething(d: Deal)
    ensures FlagsCleared(d) != d <==> HasAuthoritative(d)
  {
  }

  lemma SubmissionMove(d: Deal, roles: seq<Role>)
    requires Approved(d.state) && d.governing.Some?
    ensures Transition(d, d.orgId, EXECUTED_PENDING_VERIFICATION, roles).error.None? <==>
            HoldBlock(d, false).None? && (FINANCE_MANAGER in roles || ADMIN in roles) && !HasOpenDiscrepancy(d)
  {
    SubmissionEdge(d.state, roles);
  }

  lemma RestrictionMove(d: Deal, roles: seq<Role>)
    requires d.state == EXECUTED_PENDING_VERIFICATION
    ensures Transition(d, d.orgId, DISCREPANCY_RESTRICTED, roles).error.None? <==>
            HoldBlock(d, false).None? && (COMPLIANCE_OFFICER in roles || ADMIN in roles)
  {
    RestrictionEdge(roles);
  }

  /** A refused submission still clears the authoritative flags, exactly when the move to
      EXECUTED_PENDING_VERIFICATION is what refuses it and a flag was set. */
  lemma SubmitFailsHalfWay(d: Deal, org: nat, doc: DocumentInfo, roles: seq<Role>)
    ensures FailsHalfWay(d, Submit(d, org, doc, roles)) <==>
            && Submittable(d, org, doc) && HasAuthoritative(d)
            && (HoldBlock(d, false).Some? || !(FINANCE_MANAGER in roles || ADMIN in roles) || HasOpenDiscrepancy(d))
  {
    ClearingChangesSomething(d);
    if Submittable(d, org, doc) { SubmissionMove(FlagsCleared(d), roles); }
  }

  predicate Verifiable(d: Deal, org: nat, contract: nat, hasVersion: bool) {
    && org == d.orgId && d.state == EXECUTED_PENDING_VERIFICATION && contract < |d.contracts| && hasVersion
    && d.governing.Some? && d.financials.live.Some? && d.buyer.live.Some?
  }

  /** A failed comparison rejects the contract and opens a discrepancy, and the request is refused all
      the same, exactly when a hold is active or the role may not restrict the deal. */
  lemma VerifyFailsHalfWay(d: Deal, org: nat, contract: nat, hasVersion: bool, key: Option<Text>, roles: seq<Role>)
    ensures FailsHalfWay(d, Verify(d, org, contract, hasVersion, key, roles)) <==>
            && Verifiable(d, org, contract, hasVersion) && key.Some? && key.value != [] && key != d.governing
            && (HoldBlock(d, false).Some? || !(COMPLIANCE_OFFICER in roles || ADMIN in roles))
  {
    if Verifiable(d, org, contract, hasVersion) && !ReferenceMatches(key, d.governing.value) {
      var rejected := Rejected(d, contract);
      assert |rejected.discrepancies| > |d.discrepancies|;
      RestrictionMove(rejected, roles);
    }
  }

  /** Every other refused request leaves the deal exactly as it was. */
  lemma OthersFailCleanly(d: Deal, a: Action)
    requires FailsHalfWay(d, Handle(d, a))
    ensures a.DoSubmit? || a.DoVerify?
  {
  }
}
