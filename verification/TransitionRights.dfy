/** The transition table read by state and by role: where a deal can go, who may take it there, and what every
    request for a transition needs. */
module TransitionRights {
  import opened Wrappers
  import opened DealTable
  import opened Deal
  import opened DealGuards

  // ----- Where a deal can go -----

  function Targets(from: State): set<State> {
    match from
    case DRAFT => {RED, INVALID, YELLOW, CONDITIONAL, DISCREPANCY_RESTRICTED, HOLD, ARCHIVED}
    case RED => {YELLOW, DRAFT, CONDITIONAL}
    case INVALID => {DRAFT, CONDITIONAL}
    case YELLOW => {GREEN_STAGE_1, APPROVED, RED, HOLD, DISCREPANCY_RESTRICTED}
    case CONDITIONAL => {GREEN_STAGE_1, APPROVED, INVALID}
    case GREEN_STAGE_1 => {EXECUTED_PENDING_VERIFICATION, EXECUTED, DISCREPANCY_RESTRICTED, HOLD}
    case APPROVED => {EXECUTED, EXECUTED_PENDING_VERIFICATION, DISCREPANCY_RESTRICTED, HOLD}
    case EXECUTED => {LOCKED, DISCREPANCY_RESTRICTED}
    case EXECUTED_PENDING_VERIFICATION => {LOCKED, DISCREPANCY_RESTRICTED}
    case LOCKED => {POST_FUNDING_PENDING}
    case POST_FUNDING_PENDING => {COMPLETED, GREEN_STAGE_2}
    case COMPLETED => {GREEN_STAGE_2, ARCHIVED}
    case GREEN_STAGE_2 => {ARCHIVED}
    case DISCREPANCY_RESTRICTED => {YELLOW, CONDITIONAL}
    case HOLD => {DRAFT}
    case ARCHIVED => {PURGED}
    case PURGED => {}
  }

  lemma FirstRowsAreTargets(k: nat)
    requires k < 21
    ensures DEAL_TRANSITIONS[k].to in Targets(DEAL_TRANSITIONS[k].from)
  {
  }

  lemma LastRowsAreTargets(k: nat)
    requires 21 <= k < |DEAL_TRANSITIONS|
    ensures DEAL_TRANSITIONS[k].to in Targets(DEAL_TRANSITIONS[k].from)
  {
  }

  predicate IsRow(k: nat, from: State, to: State) {
    k < |DEAL_TRANSITIONS| && DEAL_TRANSITIONS[k].from == from && DEAL_TRANSITIONS[k].to == to
  }

  lemma DraftRows()
    ensures IsRow(0, DRAFT, RED) && IsRow(1, DRAFT, INVALID) && IsRow(2, DRAFT, YELLOW) && IsRow(3, DRAFT, CONDITIONAL) && IsRow(4, DRAFT, DISCREPANCY_RESTRICTED) && IsRow(5, DRAFT, HOLD) && IsRow(33, DRAFT, ARCHIVED)
  {
  }

  lemma EarlyRows()
    ensures IsRow(6, RED, YELLOW) && IsRow(7, RED, DRAFT) && IsRow(9, RED, CONDITIONAL)
    ensures IsRow(8, INVALID, DRAFT) && IsRow(10, INVALID, CONDITIONAL)
    ensures IsRow(11, YELLOW, GREEN_STAGE_1) && IsRow(12, YELLOW, APPROVED) && IsRow(15, YELLOW, RED) && IsRow(38, YELLOW, HOLD) && IsRow(41, YELLOW, DISCREPANCY_RESTRICTED)
    ensures IsRow(13, CONDITIONAL, GREEN_STAGE_1) && IsRow(14, CONDITIONAL, APPROVED) && IsRow(16, CONDITIONAL, INVALID)
  {
  }

  lemma ApprovedRows()
    ensures IsRow(17, GREEN_STAGE_1, EXECUTED_PENDING_VERIFICATION) && IsRow(20, GREEN_STAGE_1, EXECUTED) && IsRow(26, GREEN_STAGE_1, DISCREPANCY_RESTRICTED) && IsRow(40, GREEN_STAGE_1, HOLD)
    ensures IsRow(18, APPROVED, EXECUTED) && IsRow(19, APPROVED, EXECUTED_PENDING_VERIFICATION) && IsRow(25, APPROVED, DISCREPANCY_RESTRICTED) && IsRow(39, APPROVED, HOLD)
    ensures IsRow(21, EXECUTED, LOCKED) && IsRow(23, EXECUTED, DISCREPANCY_RESTRICTED)
    ensures IsRow(22, EXECUTED_PENDING_VERIFICATION, LOCKED) && IsRow(24, EXECUTED_PENDING_VERIFICATION, DISCREPANCY_RESTRICTED)
  {
  }

  lemma LateRows()
    ensures IsRow(27, LOCKED, POST_FUNDING_PENDING)
    ensures IsRow(28, POST_FUNDING_PENDING, COMPLETED) && IsRow(29, POST_FUNDING_PENDING, GREEN_STAGE_2)
    ensures IsRow(30, COMPLETED, GREEN_STAGE_2) && IsRow(32, COMPLETED, ARCHIVED)
    ensures IsRow(31, GREEN_STAGE_2, ARCHIVED)
    ensures IsRow(34, DISCREPANCY_RESTRICTED, YELLOW) && IsRow(35, DISCREPANCY_RESTRICTED, CONDITIONAL)
    ensures IsRow(36, HOLD, DRAFT)
    ensures IsRow(37, ARCHIVED, PURGED)
  {
  }

  lemma RowIsEdge(k: nat, from: State, to: State)
    requires IsRow(k, from, to)
    ensures Edge(from, to)
  {
  }

  lemma DraftTargetHasRow(from: State, to: State)
    requires to in Targets(from) && (from == DRAFT)
    ensures HasRow(from, to)
  {
    DraftRows();
  }

  lemma EarlyTargetHasRow(from: State, to: State)
    requires to in Targets(from) && (from == RED || from == INVALID || from == YELLOW || from == CONDITIONAL)
    ensures HasRow(from, to)
  {
    EarlyRows();
  }

  lemma ApprovedTargetHasRow(from: State, to: State)
    requires to in Targets(from) && (Approved(from) || Executed(from))
    ensures HasRow(from, to)
  {
    ApprovedRows();
  }

  lemma LateTargetHasRow(from: State, to: State)
    requires to in Targets(from)
    requires Sealed(from) || from == DISCREPANCY_RESTRICTED || from == HOLD || from == ARCHIVED
    ensures HasRow(from, to)
  {
    LateRows();
  }

  ghost predicate HasRow(from: State, to: State) { exists k :: IsRow(k, from, to) }

  lemma TargetHasRow(from: State, to: State)
    requires to in Targets(from)
    ensures HasRow(from, to)
  {
    match from {
      case DRAFT => DraftTargetHasRow(from, to);
      case RED => EarlyTargetHasRow(from, to);
      case INVALID => EarlyTargetHasRow(from, to);
      case YELLOW => EarlyTargetHasRow(from, to);
      case CONDITIONAL => EarlyTargetHasRow(from, to);
      case _ => if Approved(from) || Executed(from) { ApprovedTargetHasRow(from, to); } else { LateTargetHasRow(from, to); }
    }
  }

  /** The table leads from each state to exactly these. */
  lemma EdgesAreExactly(from: State, to: State)
    ensures Edge(from, to) <==> to in Targets(from)
  {
    if to in Targets(from) {
      TargetHasRow(from, to);
      var k :| IsRow(k, from, to);
      RowIsEdge(k, from, to);
    }
    if Edge(from, to) {
      var k :| 0 <= k < |DEAL_TRANSITIONS| && DEAL_TRANSITIONS[k] == Find(from, to).value;
      if k < 21 { FirstRowsAreTargets(k); } else { LastRowsAreTargets(k); }
    }
  }

  // ----- Who may take it there -----

  /** Places where a role may take a deal: an administrator anywhere; a compliance officer anywhere but into
      execution, the archive, and out of a hold; a finance manager along the business path; a dealer as long as the deal
      is not validated; an auditor nowhere. */
  predicate MayTake(r: Role, from: State, to: State) {
    match r
    case ADMIN => true
    case COMPLIANCE_OFFICER => !Executed(to) && to != ARCHIVED && to != PURGED && from != HOLD
    case FINANCE_MANAGER =>
      || from == RED || from == INVALID
      || (from == DRAFT && (to == RED || to == INVALID || to == YELLOW || to == CONDITIONAL))
      || (from == YELLOW && to == RED)
      || Approved(to) || Executed(to) || from == LOCKED || from == POST_FUNDING_PENDING
    case DEALER_USER =>
      || from == RED || from == INVALID
      || (from == DRAFT && (to == RED || to == INVALID || to == YELLOW || to == CONDITIONAL))
      || (from == YELLOW && to == RED)
    case AUDITOR => false
  }

  /** A governing agreement is needed for approval, execution and lock. */
  predicate NeedsGoverning(to: State) { Approved(to) || Executed(to) || to == LOCKED }

  predicate RowFits(row: TransitionRow, r: Role) {
    && (Matches(row.def.users, [r]) <==> MayTake(r, row.from, row.to))
    && (row.def.requireGoverning <==> NeedsGoverning(row.to))
  }

  lemma FirstRowsFit(k: nat, r: Role)
    requires k < 11
    ensures RowFits(DEAL_TRANSITIONS[k], r)
  {
    OneRole(DEAL_TRANSITIONS[k].def.users, r);
  }

  lemma NextRowsFit(k: nat, r: Role)
    requires 11 <= k < 21
    ensures RowFits(DEAL_TRANSITIONS[k], r)
  {
    OneRole(DEAL_TRANSITIONS[k].def.users, r);
  }

  lemma LaterRowsFit(k: nat, r: Role)
    requires 21 <= k < 32
    ensures RowFits(DEAL_TRANSITIONS[k], r)
  {
    OneRole(DEAL_TRANSITIONS[k].def.users, r);
  }

  lemma LastRowsFit(k: nat, r: Role)
    requires 32 <= k < |DEAL_TRANSITIONS|
    ensures RowFits(DEAL_TRANSITIONS[k], r)
  {
    OneRole(DEAL_TRANSITIONS[k].def.users, r);
  }

  lemma RowsFit(k: nat, r: Role)
    requires k < |DEAL_TRANSITIONS|
    ensures RowFits(DEAL_TRANSITIONS[k], r)
  {
    if k < 11 { FirstRowsFit(k, r); } else if k < 21 { NextRowsFit(k, r); } else if k < 32 { LaterRowsFit(k, r); } else { LastRowsFit(k, r); }
  }

  lemma FoundRowFits(from: State, to: State, r: Role)
    requires Edge(from, to)
    ensures RowFits(Find(from, to).value, r)
  {
    var k :| 0 <= k < |DEAL_TRANSITIONS| && DEAL_TRANSITIONS[k] == Find(from, to).value;
    RowsFit(k, r);
  }

  lemma OneRole(users: Users, r: Role)
    ensures Matches(users, [r]) <==> if users.Everyone? then r != AUDITOR else r in users.roles
  {
    assert r in [r] && forall q | q in [r] :: q == r;
  }

  lemma SomeRole(users: Users, roles: seq<Role>)
    ensures Matches(users, roles) <==> exists r | r in roles :: Matches(users, [r])
  {
    forall r | r in roles && Matches(users, [r]) ensures Matches(users, roles) { OneRole(users, r); }
    if Matches(users, roles) {
      var r :| r in roles && if users.Everyone? then r != AUDITOR else r in users.roles;
      OneRole(users, r);
    }
  }

  /** An edge may be used exactly by those of the roles that may take a deal there. */
  lemma RightsAreExactly(from: State, to: State, roles: seq<Role>)
    ensures RoleCanUse(from, to, roles) <==> to in Targets(from) && exists r | r in roles :: MayTake(r, from, to)
    ensures Edge(from, to) ==> (Find(from, to).value.def.requireGoverning <==> NeedsGoverning(to))
  {
    EdgesAreExactly(from, to);
    if Edge(from, to) {
      var row := Find(from, to).value;
      forall r ensures Matches(row.def.users, [r]) <==> MayTake(r, from, to) { FoundRowFits(from, to, r); }
      SomeRole(row.def.users, roles);
      FoundRowFits(from, to, ADMIN);
    }
  }

  // ----- What a transition needs -----

  /** A hold is active on the deal or on its organization. */
  predicate Held(d: Deal) {
    exists h | h in d.holds :: h.active && (h.onDeal || h.org == Some(d.orgId))
  }

  /** No discrepancy is open or assigned. */
  predicate NothingOpen(d: Deal) {
    forall x | x in d.discrepancies :: x.status == RESOLVED || x.status == DiscrepancyStatus.WAIVED
  }

  /** Moves an open discrepancy does not stop: to its own state and back into validation, and out of business. */
  predicate Harmless(from: State, to: State) {
    to in {DISCREPANCY_RESTRICTED, HOLD, ARCHIVED, PURGED} || (from == DISCREPANCY_RESTRICTED && to in {YELLOW, CONDITIONAL})
  }

  predicate ReadyToLock(d: Deal) {
    && (exists c | c in d.contracts :: c.status == VERIFIED)
    && (forall t | t in d.tasks :: t.isBlocker ==> t.status == DONE)
  }

  predicate ObligationsMet(d: Deal) {
    forall o | o in d.obligations :: o.isBlocker ==> o.status == SATISFIED || o.status == ObligationStatus.WAIVED
  }

  lemma HoldCheck(d: Deal, leaving: bool)
    ensures HoldBlock(d, leaving).None? <==> !Held(d) && (d.state == HOLD ==> leaving)
  {
    if Held(d) {
      var h :| h in d.holds && h.active && (h.onDeal || h.org == Some(d.orgId));
      assert HasOrgHold(d) || HasDealHold(d);
    }
  }

  lemma DiscrepancyCheck(d: Deal)
    ensures NothingOpen(d) <==> !HasOpenDiscrepancy(d)
  {
  }

  lemma LockCheck(d: Deal)
    ensures ReadyToLock(d) <==> HasVerifiedContract(d) && !HasTaskBlocker(d)
  {
  }

  lemma ObligationCheck(d: Deal)
    ensures ObligationsMet(d) <==> !HasObligationBlocker(d)
  {
  }

  lemma BlockCheck(d: Deal, to: State, roles: seq<Role>)
    ensures BlockReason(d, to, roles).None? <==>
            && RoleCanUse(d.state, to, roles)
            && (NeedsGoverning(to) ==> d.governing.Some?)
            && (NothingOpen(d) || Harmless(d.state, to))
            && (to == LOCKED ==> ReadyToLock(d))
            && (to == GREEN_STAGE_2 ==> ObligationsMet(d))
  {
    RightsAreExactly(d.state, to, roles);
    DiscrepancyCheck(d);
    LockCheck(d);
    ObligationCheck(d);
  }

  /** A transition succeeds if and only if it is asked for in the deal's organization, the table leads there, one of the
      roles may take it, no hold is active and the deal leaves HOLD for DRAFT only, the governing agreement is there
      where it is needed, nothing is open unless the move is harmless, and lock and final clearance find their own
      conditions met. */
  lemma TransitionSucceedsExactly(d: Deal, org: nat, to: State, roles: seq<Role>)
    ensures Transition(d, org, to, roles).error.None? <==>
            && org == d.orgId && to in Targets(d.state) && (exists r | r in roles :: MayTake(r, d.state, to))
            && !Held(d) && (d.state == HOLD ==> to == DRAFT)
            && (NeedsGoverning(to) ==> d.governing.Some?)
            && (NothingOpen(d) || Harmless(d.state, to))
            && (to == LOCKED ==> ReadyToLock(d))
            && (to == GREEN_STAGE_2 ==> ObligationsMet(d))
  {
    TransitionSucceeds(d, org, to, roles);
    HoldCheck(d, d.state == HOLD && to == DRAFT);
    BlockCheck(d, to, roles);
    RightsAreExactly(d.state, to, roles);
  }

  lemma HoldAnswers(d: Deal, leaving: bool)
    ensures HoldBlock(d, leaving) ==
            if exists h | h in d.holds :: h.active && h.org == Some(d.orgId) then Some(ORG_HOLD)
            else if exists h | h in d.holds :: h.active && h.onDeal then Some(TX_HOLD)
            else if d.state == HOLD && !leaving then Some(TX_STATE_HOLD)
            else None
  {
  }

  /** The reason that blocks a move: no edge, no right, no agreement, an open discrepancy, and the conditions of lock and
      final clearance, each under its own name. */
  function ReasonAgainst(d: Deal, to: State, roles: seq<Role>): Option<Error> {
    if to !in Targets(d.state) then Some(INVALID_TRANSITION)
    else if forall r | r in roles :: !MayTake(r, d.state, to) then Some(FORBIDDEN)
    else if NeedsGoverning(to) && d.governing.None? then Some(NO_GOVERNING_AGREEMENT)
    else if !NothingOpen(d) && !Harmless(d.state, to) then Some(DISCREPANCY_BLOCK)
    else if to == LOCKED && forall c | c in d.contracts :: c.status != VERIFIED then Some(EXECUTION_NOT_VERIFIED)
    else if to == LOCKED && !ReadyToLock(d) then Some(COMPLETION_BLOCKER)
    else if to == GREEN_STAGE_2 && !ObligationsMet(d) then Some(POST_FUNDING_BLOCKER)
    else None
  }

  /** The first of the checks that fails names the answer. */
  function FirstFailure(edge: bool, right: bool, governing: bool, clear: bool, verified: bool, tasks: bool, obligations: bool): Option<Error> {
    if !edge then Some(INVALID_TRANSITION)
    else if !right then Some(FORBIDDEN)
    else if !governing then Some(NO_GOVERNING_AGREEMENT)
    else if !clear then Some(DISCREPANCY_BLOCK)
    else if !verified then Some(EXECUTION_NOT_VERIFIED)
    else if !tasks then Some(COMPLETION_BLOCKER)
    else if !obligations then Some(POST_FUNDING_BLOCKER)
    else None
  }

  lemma BlockedByFirst(d: Deal, to: State, roles: seq<Role>)
    requires Edge(d.state, to)
    ensures BlockReason(d, to, roles) == FirstFailure(
              true, RoleCanUse(d.state, to, roles), !Find(d.state, to).value.def.requireGoverning || d.governing.Some?,
              !HasOpenDiscrepancy(d) || BypassesDiscrepancyGuard(d.state, to), to != LOCKED || HasVerifiedContract(d),
              to != LOCKED || !HasTaskBlocker(d), to != GREEN_STAGE_2 || !HasObligationBlocker(d))
  {
  }

  lemma AgainstByFirst(d: Deal, to: State, roles: seq<Role>)
    requires to in Targets(d.state)
    ensures ReasonAgainst(d, to, roles) == FirstFailure(
              true, exists r | r in roles :: MayTake(r, d.state, to), !NeedsGoverning(to) || d.governing.Some?,
              NothingOpen(d) || Harmless(d.state, to), to != LOCKED || exists c | c in d.contracts :: c.status == VERIFIED,
              to != LOCKED || ReadyToLock(d), to != GREEN_STAGE_2 || ObligationsMet(d))
  {
  }

  lemma ReasonsAreNamed(d: Deal, to: State, roles: seq<Role>)
    ensures BlockReason(d, to, roles) == ReasonAgainst(d, to, roles)
  {
    EdgesAreExactly(d.state, to);
    if Edge(d.state, to) {
      BlockedByFirst(d, to, roles);
      AgainstByFirst(d, to, roles);
      RightsAreExactly(d.state, to, roles);
      DiscrepancyCheck(d);
      LockCheck(d);
      VerifiedCheck(d);
      ObligationCheck(d);
    }
  }

  lemma VerifiedCheck(d: Deal)
    ensures HasVerifiedContract(d) <==> exists c | c in d.contracts :: c.status == VERIFIED
  {
  }

  /** What a transition answers, check by check. */
  lemma TransitionAnswers(d: Deal, org: nat, to: State, roles: seq<Role>)
    ensures Transition(d, org, to, roles).error ==
            if org != d.orgId then Some(NOT_FOUND)
            else if exists h | h in d.holds :: h.active && h.org == Some(d.orgId) then Some(ORG_HOLD)
            else if exists h | h in d.holds :: h.active && h.onDeal then Some(TX_HOLD)
            else if d.state == HOLD && to != DRAFT then Some(TX_STATE_HOLD)
            else if to == d.state then Some(NOOP)
            else ReasonAgainst(d, to, roles)
  {
    HoldAnswers(d, d.state == HOLD && to == DRAFT);
    ReasonsAreNamed(d, to, roles);
  }
}
