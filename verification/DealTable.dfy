/** The authoritative table of state changes, and the look-ups over it. */
module DealTable {
  import opened Wrappers

  datatype State =
    | DRAFT | INVALID | CONDITIONAL | APPROVED | EXECUTED
    | RED | YELLOW | GREEN_STAGE_1 | EXECUTED_PENDING_VERIFICATION
    | LOCKED | POST_FUNDING_PENDING | COMPLETED | GREEN_STAGE_2
    | DISCREPANCY_RESTRICTED | HOLD | ARCHIVED | PURGED

  datatype Role = ADMIN | DEALER_USER | FINANCE_MANAGER | COMPLIANCE_OFFICER | AUDITOR

  /** Who may use a row; `Everyone` is every role but the auditor. */
  datatype Users = Everyone | Only(roles: set<Role>)

  datatype Def = Def(users: Users, requireGoverning: bool)

  datatype TransitionRow = TransitionRow(from: State, to: State, def: Def)

  const DEAL_TRANSITIONS: seq<TransitionRow> := [
    TransitionRow(DRAFT, RED, Def(Only({DEALER_USER, FINANCE_MANAGER, COMPLIANCE_OFFICER, ADMIN}), false)),
    TransitionRow(DRAFT, INVALID, Def(Only({DEALER_USER, FINANCE_MANAGER, COMPLIANCE_OFFICER, ADMIN}), false)),
    TransitionRow(DRAFT, YELLOW, Def(Only({DEALER_USER, FINANCE_MANAGER, COMPLIANCE_OFFICER, ADMIN}), false)),
    TransitionRow(DRAFT, CONDITIONAL, Def(Only({DEALER_USER, FINANCE_MANAGER, COMPLIANCE_OFFICER, ADMIN}), false)),
    TransitionRow(DRAFT, DISCREPANCY_RESTRICTED, Def(Only({COMPLIANCE_OFFICER, ADMIN}), false)),
    TransitionRow(DRAFT, HOLD, Def(Only({ADMIN, COMPLIANCE_OFFICER}), false)),
    TransitionRow(RED, YELLOW, Def(Only({DEALER_USER, FINANCE_MANAGER, COMPLIANCE_OFFICER, ADMIN}), false)),
    TransitionRow(RED, DRAFT, Def(Everyone, false)),
    TransitionRow(INVALID, DRAFT, Def(Everyone, false)),
    TransitionRow(RED, CONDITIONAL, Def(Only({DEALER_USER, FINANCE_MANAGER, COMPLIANCE_OFFICER, ADMIN}), false)),
    TransitionRow(INVALID, CONDITIONAL, Def(Only({DEALER_USER, FINANCE_MANAGER, COMPLIANCE_OFFICER, ADMIN}), false)),
    TransitionRow(YELLOW, GREEN_STAGE_1, Def(Only({FINANCE_MANAGER, COMPLIANCE_OFFICER, ADMIN}), true)),
    TransitionRow(YELLOW, APPROVED, Def(Only({FINANCE_MANAGER, COMPLIANCE_OFFICER, ADMIN}), true)),
    TransitionRow(CONDITIONAL, GREEN_STAGE_1, Def(Only({FINANCE_MANAGER, COMPLIANCE_OFFICER, ADMIN}), true)),
    TransitionRow(CONDITIONAL, APPROVED, Def(Only({FINANCE_MANAGER, COMPLIANCE_OFFICER, ADMIN}), true)),
    TransitionRow(YELLOW, RED, Def(Only({COMPLIANCE_OFFICER, DEALER_USER, FINANCE_MANAGER, ADMIN}), false)),
    TransitionRow(CONDITIONAL, INVALID, Def(Only({COMPLIANCE_OFFICER, ADMIN}), false)),
    TransitionRow(GREEN_STAGE_1, EXECUTED_PENDING_VERIFICATION, Def(Only({FINANCE_MANAGER, ADMIN}), true)),
    TransitionRow(APPROVED, EXECUTED, Def(Only({FINANCE_MANAGER, ADMIN}), true)),
    TransitionRow(APPROVED, EXECUTED_PENDING_VERIFICATION, Def(Only({FINANCE_MANAGER, ADMIN}), true)),
    TransitionRow(GREEN_STAGE_1, EXECUTED, Def(Only({FINANCE_MANAGER, ADMIN}), true)),
    TransitionRow(EXECUTED, LOCKED, Def(Only({COMPLIANCE_OFFICER, ADMIN}), true)),
    TransitionRow(EXECUTED_PENDING_VERIFICATION, LOCKED, Def(Only({COMPLIANCE_OFFICER, ADMIN}), true)),
    TransitionRow(EXECUTED, DISCREPANCY_RESTRICTED, Def(Only({COMPLIANCE_OFFICER, ADMIN}), false)),
    TransitionRow(EXECUTED_PENDING_VERIFICATION, DISCREPANCY_RESTRICTED, Def(Only({COMPLIANCE_OFFICER, ADMIN}), false)),
    TransitionRow(APPROVED, DISCREPANCY_RESTRICTED, Def(Only({COMPLIANCE_OFFICER, ADMIN}), false)),
    TransitionRow(GREEN_STAGE_1, DISCREPANCY_RESTRICTED, Def(Only({COMPLIANCE_OFFICER, ADMIN}), false)),
    TransitionRow(LOCKED, POST_FUNDING_PENDING, Def(Only({FINANCE_MANAGER, COMPLIANCE_OFFICER, ADMIN}), false)),
    TransitionRow(POST_FUNDING_PENDING, COMPLETED, Def(Only({COMPLIANCE_OFFICER, FINANCE_MANAGER, ADMIN}), false)),
    TransitionRow(POST_FUNDING_PENDING, GREEN_STAGE_2, Def(Only({COMPLIANCE_OFFICER, FINANCE_MANAGER, ADMIN}), false)),
    TransitionRow(COMPLETED, GREEN_STAGE_2, Def(Only({COMPLIANCE_OFFICER, ADMIN}), false)),
    TransitionRow(GREEN_STAGE_2, ARCHIVED, Def(Only({ADMIN}), false)),
    TransitionRow(COMPLETED, ARCHIVED, Def(Only({ADMIN}), false)),
    TransitionRow(DRAFT, ARCHIVED, Def(Only({ADMIN}), false)),
    TransitionRow(DISCREPANCY_RESTRICTED, YELLOW, Def(Only({COMPLIANCE_OFFICER, ADMIN}), false)),
    TransitionRow(DISCREPANCY_RESTRICTED, CONDITIONAL, Def(Only({COMPLIANCE_OFFICER, ADMIN}), false)),
    TransitionRow(HOLD, DRAFT, Def(Only({ADMIN}), false)),
    TransitionRow(ARCHIVED, PURGED, Def(Only({ADMIN}), false)),
    TransitionRow(YELLOW, HOLD, Def(Only({ADMIN, COMPLIANCE_OFFICER}), false)),
    TransitionRow(APPROVED, HOLD, Def(Only({ADMIN, COMPLIANCE_OFFICER}), false)),
    TransitionRow(GREEN_STAGE_1, HOLD, Def(Only({ADMIN, COMPLIANCE_OFFICER}), false)),
    TransitionRow(YELLOW, DISCREPANCY_RESTRICTED, Def(Only({COMPLIANCE_OFFICER, ADMIN}), false))]

  /** The first row from `i` on for this pair of states. */
  function FindFrom(i: nat, from: State, to: State): (row: Option<TransitionRow>)
    requires i <= |DEAL_TRANSITIONS|
    ensures row.Some? ==> row.value in DEAL_TRANSITIONS && row.value.from == from && row.value.to == to
    ensures row.None? ==> forall k | i <= k < |DEAL_TRANSITIONS| :: DEAL_TRANSITIONS[k].from != from || DEAL_TRANSITIONS[k].to != to
    decreases |DEAL_TRANSITIONS| - i
  {
    if i == |DEAL_TRANSITIONS| then None
    else if DEAL_TRANSITIONS[i].from == from && DEAL_TRANSITIONS[i].to == to then Some(DEAL_TRANSITIONS[i])
    else FindFrom(i + 1, from, to)
  }

  /** `findTransitionDef`. */
  function Find(from: State, to: State): (row: Option<TransitionRow>)
    ensures row.Some? ==> row.value in DEAL_TRANSITIONS && row.value.from == from && row.value.to == to
    ensures row.None? <==> forall k | 0 <= k < |DEAL_TRANSITIONS| :: DEAL_TRANSITIONS[k].from != from || DEAL_TRANSITIONS[k].to != to
  {
    FindFrom(0, from, to)
  }

  predicate Edge(from: State, to: State) {
    Find(from, to).Some?
  }

  predicate Matches(users: Users, roles: seq<Role>) {
    match users
    case Everyone => exists r | r in roles :: r != AUDITOR
    case Only(allowed) => exists r | r in allowed :: r in roles
  }

  /** `roleCanUseTransition`. */
  predicate RoleCanUse(from: State, to: State, roles: seq<Role>) {
    Edge(from, to) && Matches(Find(from, to).value.def.users, roles)
  }

  ghost predicate IsTarget(table: seq<TransitionRow>, from: State, to: State) {
    exists k :: 0 <= k < |table| && table[k].from == from && table[k].to == to
  }

  method TargetsIn(table: seq<TransitionRow>, from: State) returns (targets: set<State>)
    ensures forall to :: to in targets <==> IsTarget(table, from, to)
  {
    targets := {};
    for i := 0 to |table|
      invariant forall to :: to in targets <==> IsTarget(table[..i], from, to)
    {
      if table[i].from == from { targets := targets + {table[i].to}; }
      forall to ensures IsTarget(table[..i + 1], from, to) <==> IsTarget(table[..i], from, to) || (table[i].from == from && table[i].to == to) {
        assert table[..i + 1][i] == table[i];
        assert forall k | 0 <= k < i :: table[..i + 1][k] == table[..i][k];
      }
    }
    assert table[..|table|] == table;
  }

  /** `candidateTargets`: the states one edge away. */
  method CandidateTargets(from: State) returns (targets: set<State>)
    ensures forall to :: to in targets <==> Edge(from, to)
  {
    targets := TargetsIn(DEAL_TRANSITIONS, from);
  }

  // ----- The shape of the table -----

  /** States in which the deal's data was approved and must not have changed since. */
  predicate Approved(s: State) { s == GREEN_STAGE_1 || s == APPROVED }

  predicate Executed(s: State) { s == EXECUTED || s == EXECUTED_PENDING_VERIFICATION }

  predicate Sealed(s: State) { s == LOCKED || s == POST_FUNDING_PENDING || s == COMPLETED || s == GREEN_STAGE_2 }

  /** How many transitions a sealed deal can still make at most. */
  function Rank(s: State): nat {
    match s
    case LOCKED => 5
    case POST_FUNDING_PENDING => 4
    case COMPLETED => 3
    case GREEN_STAGE_2 => 2
    case ARCHIVED => 1
    case _ => 0
  }

  /** Where an edge may come from: approval follows validation, execution follows approval, the lock
      follows execution, and the later stages follow the lock. */
  predicate EntersInOrder(from: State, to: State) {
    && (Approved(to) ==> from == YELLOW || from == CONDITIONAL)
    && (Executed(to) ==> Approved(from))
    && (to == LOCKED ==> Executed(from))
    && (Sealed(to) && to != LOCKED ==> Sealed(from))
  }

  /** Where an edge may lead: no edge stands still, and from the lock on every edge lowers the rank. */
  predicate LeavesInOrder(from: State, to: State) {
    && from != to && from != PURGED
    && (from == ARCHIVED ==> to == PURGED)
    && (from == HOLD ==> to == DRAFT)
    && (from == LOCKED ==> to == POST_FUNDING_PENDING)
    && (Sealed(from) ==> (Sealed(to) || to == ARCHIVED) && Rank(to) < Rank(from))
  }

  lemma FirstRowsEnterInOrder(i: nat)
    requires i < 21
    ensures EntersInOrder(DEAL_TRANSITIONS[i].from, DEAL_TRANSITIONS[i].to)
  {
  }

  lemma LastRowsEnterInOrder(i: nat)
    requires 21 <= i < |DEAL_TRANSITIONS|
    ensures EntersInOrder(DEAL_TRANSITIONS[i].from, DEAL_TRANSITIONS[i].to)
  {
  }

  lemma FirstRowsLeaveInOrder(i: nat)
    requires i < 21
    ensures LeavesInOrder(DEAL_TRANSITIONS[i].from, DEAL_TRANSITIONS[i].to)
  {
  }

  lemma LastRowsLeaveInOrder(i: nat)
    requires 21 <= i < |DEAL_TRANSITIONS|
    ensures LeavesInOrder(DEAL_TRANSITIONS[i].from, DEAL_TRANSITIONS[i].to)
  {
  }

  lemma EdgesAreOrdered(from: State, to: State)
    requires Edge(from, to)
    ensures EntersInOrder(from, to) && LeavesInOrder(from, to)
  {
    var k :| 0 <= k < |DEAL_TRANSITIONS| && DEAL_TRANSITIONS[k].from == from && DEAL_TRANSITIONS[k].to == to;
    if k < 21 {
      FirstRowsEnterInOrder(k);
      FirstRowsLeaveInOrder(k);
    } else {
      LastRowsEnterInOrder(k);
      LastRowsLeaveInOrder(k);
    }
  }
}
