/** What submission, verification, clearance and holds leave in the rows, read off the request and the rows before. */
module ExecutionOutcomes {
  import opened Wrappers
  import opened Texts
  import opened DealTable
  import opened Deal
  import opened DealGuards
  import opened TransitionRights

  predicate Among(roles: seq<Role>, allowed: set<Role>) { exists r | r in roles :: r in allowed }

  // ----- Verification -----

  /** The document names no requirement, or the governing reference. */
  predicate KeyPasses(key: Option<Text>, reference: Text) {
    key.None? || key.value == [] || key.value == reference
  }

  /** The contract with its status set, and the others as they are. */
  predicate OnlyStatusSet(cs: seq<Contract>, cs': seq<Contract>, i: nat, status: ContractStatus)
    requires i < |cs|
  {
    && |cs'| == |cs| && cs'[i].status == status && cs'[i].authoritative == cs[i].authoritative
    && forall j | 0 <= j < |cs| && j != i :: cs'[j] == cs[j]
  }

  /** A contract under verification becomes VERIFIED if and only if its document names no requirement or the governing
      reference; nothing else changes then. Otherwise it becomes REJECTED and one EXECUTION_MISMATCH is opened; the
      deal is restricted if no hold is active and a permitted role asks, and the request refused if not. */
  lemma VerificationDecides(d: Deal, org: nat, contract: nat, key: Option<Text>, roles: seq<Role>)
    requires Verifiable(d, org, contract, true)
    ensures var o := Verify(d, org, contract, true, key, roles);
            if KeyPasses(key, d.governing.value) then
              && OnlyStatusSet(d.contracts, o.deal.contracts, contract, VERIFIED)
              && o == Outcome(d.(contracts := o.deal.contracts), None)
            else
              && OnlyStatusSet(d.contracts, o.deal.contracts, contract, REJECTED)
              && o.deal.discrepancies == d.discrepancies + [Discrepancy(Units("EXECUTION_MISMATCH"), OPEN)]
              && (o.error.None? <==> !Held(d) && Among(roles, {COMPLIANCE_OFFICER, ADMIN}))
              && o.deal == d.(contracts := o.deal.contracts, discrepancies := o.deal.discrepancies,
                              state := if o.error.None? then DISCREPANCY_RESTRICTED else d.state,
                              log := d.log + if o.error.None? then [LogRow(d.state, DISCREPANCY_RESTRICTED)] else [])
  {
    if !KeyPasses(key, d.governing.value) {
      var rejected := Rejected(d, contract);
      RestrictionMove(rejected, roles);
      HoldCheck(d, false);
      HoldCheck(rejected, false);
    }
  }

  /** A contract that cannot be verified is refused, and nothing changes. */
  lemma VerificationRefuses(d: Deal, org: nat, contract: nat, hasVersion: bool, key: Option<Text>, roles: seq<Role>)
    requires !Verifiable(d, org, contract, hasVersion)
    ensures var o := Verify(d, org, contract, hasVersion, key, roles); o.error.Some? && o.deal == d
  {
  }

  // ----- Submission -----

  /** The document is an executed contract, accepted, in a version there is; the deal has its agreement. */
  predicate FitForSubmission(d: Deal, org: nat, doc: DocumentInfo) {
    org == d.orgId && doc.found && doc.isExecutedContract && doc.accepted && doc.hasVersion && d.governing.Some?
  }

  /** The contracts with every flag cleared. */
  predicate FlagsGone(cs: seq<Contract>, cs': seq<Contract>) {
    |cs'| >= |cs| && forall i | 0 <= i < |cs| :: cs'[i].status == cs[i].status && !cs'[i].authoritative
  }

  /** A submission is accepted if and only if the document is fit and the deal is already pending, or approved and free
      to move there; then the last contract is the one authoritative, pending verification, and the deal is pending. */
  lemma SubmissionDecides(d: Deal, org: nat, doc: DocumentInfo, roles: seq<Role>)
    ensures var o := Submit(d, org, doc, roles);
            && (o.error.None? <==>
                && FitForSubmission(d, org, doc)
                && (d.state == EXECUTED_PENDING_VERIFICATION
                    || (Approved(d.state) && !Held(d) && NothingOpen(d) && Among(roles, {FINANCE_MANAGER, ADMIN}))))
            && (o.error.None? ==>
                && o.deal.state == EXECUTED_PENDING_VERIFICATION && FlagsGone(d.contracts, o.deal.contracts)
                && o.deal.contracts[|d.contracts|..] == [Contract(PENDING_VERIFICATION, true)])
  {
    if Approved(d.state) && FitForSubmission(d, org, doc) {
      var cleared := FlagsCleared(d);
      SubmissionMove(cleared, roles);
      HoldCheck(d, false);
      HoldCheck(cleared, false);
      DiscrepancyCheck(d);
      DiscrepancyCheck(cleared);
    }
  }

  // ----- Final clearance -----

  /** Everything that is due by now is satisfied or waived. */
  predicate NothingOverdue(d: Deal, now: int) {
    forall o | o in d.obligations && o.dueAt.Some? && o.dueAt.value < now :: o.status == SATISFIED || o.status == ObligationStatus.WAIVED
  }

  lemma OverdueCheck(d: Deal, now: int)
    ensures NothingOverdue(d, now) <==> forall o | o in d.obligations :: !IsOverdue(o, now)
  {
  }

  /** Clearance succeeds if and only if the deal is in post-funding or completed, under no hold, with nothing open, no
      blocking obligation and nothing overdue, and a permitted role asks. */
  lemma ClearanceSucceedsExactly(d: Deal, org: nat, roles: seq<Role>, now: int)
    ensures Clear(d, org, roles, now).error.None? <==>
            && org == d.orgId && !Held(d) && NothingOpen(d) && ObligationsMet(d) && NothingOverdue(d, now)
            && ((d.state == POST_FUNDING_PENDING && Among(roles, {COMPLIANCE_OFFICER, FINANCE_MANAGER, ADMIN}))
                || (d.state == COMPLETED && Among(roles, {COMPLIANCE_OFFICER, ADMIN})))
    ensures Clear(d, org, roles, now).error.None? ==> Clear(d, org, roles, now).deal.state == GREEN_STAGE_2
  {
    ClearanceAgreement(d, org, roles, now);
    DiscrepancyCheck(d);
    ObligationCheck(d);
    OverdueCheck(d, now);
    HoldCheck(d, true);
  }

  // ----- Holds -----

  /** Placing a hold holds the deal if and only if it is on the deal or on its organization; on the deal it also
      overwrites the state of the organization's deal. Nothing else changes. */
  lemma HoldPlaced(d: Deal, org: nat, scope: bool, onDeal: bool)
    ensures var o := PlaceHold(d, org, scope, onDeal);
            && o.error.None? && o.deal == d.(holds := o.deal.holds, state := o.deal.state)
            && o.deal.state == (if onDeal && org == d.orgId then HOLD else d.state)
            && (Held(o.deal) <==> Held(d) || onDeal || (scope && org == d.orgId))
  {
    var h := Hold(if scope then Some(org) else None, onDeal, true);
    var o := PlaceHold(d, org, scope, onDeal);
    assert o.deal.holds == d.holds + [h] && h in o.deal.holds;
    forall g | g in d.holds ensures g in o.deal.holds {}
  }

  /** A release is refused if and only if there is no such hold or it is another organization's. If not, that hold
      alone ends, and a deal in HOLD goes to DRAFT if the hold was on it. */
  lemma HoldReleased(d: Deal, org: nat, hold: nat)
    ensures var o := ReleaseHold(d, org, hold);
            && (o.error.None? <==> hold < |d.holds| && (d.holds[hold].org.None? || d.holds[hold].org == Some(org)))
            && (o.error.Some? ==> o.deal == d)
            && (o.error.None? ==>
                && |o.deal.holds| == |d.holds| && o.deal.holds[hold] == d.holds[hold].(active := false)
                && (forall i | 0 <= i < |d.holds| && i != hold :: o.deal.holds[i] == d.holds[i])
                && o.deal == d.(holds := o.deal.holds, state := o.deal.state)
                && o.deal.state == (if d.state == HOLD && d.holds[hold].onDeal && org == d.orgId then DRAFT else d.state))
  {
  }
}
