/** Deals that real runs reach, and on which a promise fails. */
module ReachableCases {
  import opened Wrappers
  import opened Texts
  import opened Json
  import opened KeyOrder
  import opened ObjectDiff
  import opened StoredJson
  import opened DealTable
  import opened DealData
  import opened Deal
  import opened DealGuards
  import opened ExecutionOutcomes
  import opened VersionHistory
  import opened PatchRuns

  // ----- Reaching a deal -----

  ghost predicate RunTo(ds: seq<Deal>, actions: seq<Action>, d: Deal) {
    Run(ds, actions) && ds[|ds| - 1] == d
  }

  /** Some run from a created deal ends in this one. */
  ghost predicate Reachable(d: Deal) {
    exists ds, actions :: RunTo(ds, actions, d)
  }

  lemma CreatedIsReachable(d: Deal)
    requires Created(d)
    ensures Reachable(d)
  {
    assert RunTo([d], [], d);
  }

  lemma RunExtends(ds: seq<Deal>, actions: seq<Action>, d: Deal, a: Action)
    requires RunTo(ds, actions, d) && ValidAction(a)
    ensures RunTo(ds + [Handle(d, a).deal], actions + [a], Handle(d, a).deal)
  {
    var ds', actions' := ds + [Handle(d, a).deal], actions + [a];
    forall i | 0 <= i < |actions'| ensures StepAt(ds', actions', i) {
      if i < |actions| { RunStep(ds, actions, i); }
    }
  }

  lemma NextIsReachable(d: Deal, a: Action)
    requires Reachable(d) && ValidAction(a)
    ensures Reachable(Handle(d, a).deal)
  {
    var ds, actions :| RunTo(ds, actions, d);
    RunExtends(ds, actions, d, a);
  }

  // ----- Moves of an administrator -----

  lemma FirstRowsAdmitAdmin(i: nat)
    requires i < 21
    ensures Matches(DEAL_TRANSITIONS[i].def.users, [ADMIN])
  {
    assert ADMIN in [ADMIN];
  }

  lemma LastRowsAdmitAdmin(i: nat)
    requires 21 <= i < |DEAL_TRANSITIONS|
    ensures Matches(DEAL_TRANSITIONS[i].def.users, [ADMIN])
  {
    assert ADMIN in [ADMIN];
  }

  lemma AdminMayUse(from: State, to: State)
    requires Edge(from, to)
    ensures RoleCanUse(from, to, [ADMIN])
  {
    var i :| 0 <= i < |DEAL_TRANSITIONS| && DEAL_TRANSITIONS[i] == Find(from, to).value;
    if i < 21 { FirstRowsAdmitAdmin(i); } else { LastRowsAdmitAdmin(i); }
  }

  /** "REF" */
  const REFERENCE: Text := [82, 69, 70]

  /** Nothing stands in the way of the deal. */
  predicate Quiet(d: Deal) {
    d.governing == Some(REFERENCE) && d.state != HOLD && d.holds == [] && d.discrepancies == [] && d.tasks == [] && d.obligations == []
  }

  lemma QuietPasses(d: Deal, to: State, roles: seq<Role>)
    requires Quiet(d) && RoleCanUse(d.state, to, roles) && d.state != to && to != LOCKED
    ensures TransitionError(d, d.orgId, to, roles).None?
  {
  }

  lemma AdminMoves(d: Deal, to: State)
    requires Quiet(d) && Edge(d.state, to) && to != LOCKED
    ensures Transition(d, d.orgId, to, [ADMIN]) == Outcome(Moved(d, to), None)
  {
    AdminMayUse(d.state, to);
    EdgesAreOrdered(d.state, to);
    QuietPasses(d, to, [ADMIN]);
  }

  lemma ReachMoved(d: Deal, to: State)
    requires Reachable(d) && Quiet(d) && Edge(d.state, to) && to != LOCKED
    ensures Reachable(Moved(d, to))
  {
    AdminMoves(d, to);
    NextIsReachable(d, DoTransition(d.orgId, to, [ADMIN]));
  }

  const GOOD_DOCUMENT := DocumentInfo(true, true, true, true)

  /** The deal once its executed contract has been submitted. */
  function Submitted(d: Deal): Deal {
    Moved(FlagsCleared(d).(contracts := FlagsCleared(d).contracts + [Contract(PENDING_VERIFICATION, true)]), EXECUTED_PENDING_VERIFICATION)
  }

  lemma ReachSubmitted(d: Deal)
    requires Reachable(d) && Quiet(d) && Approved(d.state)
    ensures Reachable(Submitted(d))
  {
    VerificationIsInTable();
    AdminMoves(FlagsCleared(d), EXECUTED_PENDING_VERIFICATION);
    NextIsReachable(d, DoSubmit(d.orgId, GOOD_DOCUMENT, [ADMIN]));
  }

  // ----- A deal awaiting verification -----

  const EMPTY_DEAL := Deal(0, DRAFT, CANDIDATE_PHASE, Some(REFERENCE), EmptyTrack(), EmptyTrack(), EmptyTrack(),
                           [], [], [], [], [], 0, [], 0)

  const SOME_BUYER := BuyerPatch(Some(REFERENCE), None, None, None)
  const SOME_FINANCIALS := FinancialsPatch(Some(100.0), None, None, None, None)

  /** The records a verification needs are there. */
  predicate Recordful(d: Deal) { d.buyer.live.Some? && d.financials.live.Some? }

  /** A draft with nothing in the way, on which only the records changed. */
  predicate DraftLike(d: Deal, d': Deal) {
    Quiet(d') && d'.state == DRAFT && d'.orgId == d.orgId && d'.contracts == d.contracts
  }

  lemma DraftIsOpen(d: Deal, current: Option<nat>)
    requires Quiet(d) && d.state == DRAFT
    ensures PatchBlock(d, d.orgId, current, None).None? && Demoted(d) == d
  {
  }

  lemma BuyerPatched(d: Deal, p: BuyerPatch)
    requires Quiet(d) && d.state == DRAFT
    ensures var o := PatchBuyer(d, d.orgId, p, None, []);
            && o.error.None? && DraftLike(d, o.deal)
            && o.deal.buyer.live == Some(StoredBuyer(MergeBuyer(d.buyer.live, p))) && o.deal.financials == d.financials
  {
    DraftIsOpen(d, CurrentVersion(d.buyer));
  }

  lemma FinancialsPatched(d: Deal, p: FinancialsPatch)
    requires Quiet(d) && d.state == DRAFT && p.amount.Some?
    ensures var o := PatchFinancials(d, d.orgId, p, None, []);
            && o.error.None? && DraftLike(d, o.deal) && o.deal.financials.live.Some? && o.deal.buyer == d.buyer
  {
    DraftIsOpen(d, CurrentVersion(d.financials));
  }

  lemma ReachRecords() returns (d: Deal)
    ensures Reachable(d) && Quiet(d) && Recordful(d) && d.state == DRAFT && d.contracts == []
  {
    CreatedIsReachable(EMPTY_DEAL);
    BuyerPatched(EMPTY_DEAL, SOME_BUYER);
    NextIsReachable(EMPTY_DEAL, DoPatchBuyer(0, SOME_BUYER, None, []));
    var b := PatchBuyer(EMPTY_DEAL, 0, SOME_BUYER, None, []).deal;
    FinancialsPatched(b, SOME_FINANCIALS);
    NextIsReachable(b, DoPatchFinancials(0, SOME_FINANCIALS, None, []));
    d := PatchFinancials(b, 0, SOME_FINANCIALS, None, []).deal;
  }

  lemma ReachApproved(d: Deal) returns (e: Deal)
    requires Reachable(d) && Quiet(d) && d.state == DRAFT
    ensures Reachable(e) && Quiet(e) && e.state == GREEN_STAGE_1 && (Recordful(d) ==> Recordful(e))
    ensures e.contracts == d.contracts && e.buyer == d.buyer && e.orgId == d.orgId
  {
    ApprovalIsInTable(YELLOW, GREEN_STAGE_1);
    DraftToYellow();
    ReachMoved(d, YELLOW);
    ReachMoved(Moved(d, YELLOW), GREEN_STAGE_1);
    e := Moved(Moved(d, YELLOW), GREEN_STAGE_1);
  }

  lemma DraftToYellow()
    ensures Edge(DRAFT, YELLOW)
  {
    assert DEAL_TRANSITIONS[2].from == DRAFT && DEAL_TRANSITIONS[2].to == YELLOW;
  }

  lemma ReachPending() returns (d: Deal)
    ensures Reachable(d) && Quiet(d) && Recordful(d) && d.state == EXECUTED_PENDING_VERIFICATION
    ensures d.contracts == [Contract(PENDING_VERIFICATION, true)]
  {
    var r := ReachRecords();
    var e := ReachApproved(r);
    ReachSubmitted(e);
    d := Submitted(e);
  }

  // ----- Requests that fail half way -----

  lemma RestrictedToYellow()
    ensures Edge(DISCREPANCY_RESTRICTED, YELLOW)
  {
    assert DEAL_TRANSITIONS[34].from == DISCREPANCY_RESTRICTED && DEAL_TRANSITIONS[34].to == YELLOW;
  }

  /** A run submits a contract, restricts and approves the deal again; then a compliance officer submits: the
      request is refused, and the authoritative flag is gone. */
  lemma SubmitFailsHalfWayInARun()
    ensures exists d :: Reachable(d) && d.governing.Some? && FailsHalfWay(d, Submit(d, d.orgId, GOOD_DOCUMENT, [COMPLIANCE_OFFICER]))
  {
    var p := ReachPending();
    VerificationIsInTable();
    RestrictedToYellow();
    ApprovalIsInTable(YELLOW, GREEN_STAGE_1);
    ReachMoved(p, DISCREPANCY_RESTRICTED);
    var q := Moved(p, DISCREPANCY_RESTRICTED);
    ReachMoved(q, YELLOW);
    ReachMoved(Moved(q, YELLOW), GREEN_STAGE_1);
    var d := Moved(Moved(q, YELLOW), GREEN_STAGE_1);
    assert d.contracts[0] in d.contracts;
    SubmitFailsHalfWay(d, d.orgId, GOOD_DOCUMENT, [COMPLIANCE_OFFICER]);
  }

  /** While verification is pending the organization is put on hold; then a compliance officer verifies a
      document with another reference: the request is refused, and the contract is rejected. */
  lemma VerifyFailsHalfWayInARun()
    ensures exists d :: Reachable(d) && d.governing.Some? && FailsHalfWay(d, Verify(d, d.orgId, 0, true, Some(UNKNOWN), [COMPLIANCE_OFFICER]))
  {
    var p := ReachPending();
    var a := DoPlaceHold(p.orgId, true, false);
    NextIsReachable(p, a);
    var d := Handle(p, a).deal;
    assert d.holds == [Hold(Some(p.orgId), false, true)];
    assert d.holds[0] in d.holds;
    assert UNKNOWN[0] != REFERENCE[0];
    VerifyFailsHalfWay(d, d.orgId, 0, true, Some(UNKNOWN), [COMPLIANCE_OFFICER]);
  }

  // ----- A matching document, and the lock -----

  /** A run ends with a contract pending verification; its document names the governing reference: it is verified, and a
      compliance officer locks the deal. */
  lemma MatchingKeyLocksInARun()
    ensures exists d :: Reachable(d) && d.state == EXECUTED_PENDING_VERIFICATION && d.contracts == [Contract(PENDING_VERIFICATION, true)]
                     && var v := Verify(d, d.orgId, 0, true, d.governing, [COMPLIANCE_OFFICER]);
                        && v.error.None? && v.deal.contracts == [Contract(VERIFIED, true)]
                        && Transition(v.deal, d.orgId, LOCKED, [COMPLIANCE_OFFICER]) == Outcome(Moved(v.deal, LOCKED), None)
  {
    var p := ReachPending();
    var v := Verify(p, p.orgId, 0, true, p.governing, [COMPLIANCE_OFFICER]).deal;
    VerificationDecides(p, p.orgId, 0, p.governing, [COMPLIANCE_OFFICER]);
    assert v.contracts[0].status == VERIFIED && v.contracts[0] in v.contracts;
    assert v.contracts == [Contract(VERIFIED, true)];
    LockConditions(v, p.orgId, [COMPLIANCE_OFFICER]);
  }

  // ----- An overdue obligation -----

  lemma ReachVerified() returns (d: Deal)
    ensures Reachable(d) && Quiet(d) && d.state == EXECUTED_PENDING_VERIFICATION && HasVerifiedContract(d)
  {
    var p := ReachPending();
    var a := DoVerify(p.orgId, 0, true, None, [ADMIN]);
    NextIsReachable(p, a);
    d := Handle(p, a).deal;
    assert d.contracts[0].status == VERIFIED && d.contracts[0] in d.contracts;
  }

  lemma FundingIsInTable()
    ensures Edge(LOCKED, POST_FUNDING_PENDING)
  {
    assert DEAL_TRANSITIONS[27].from == LOCKED && DEAL_TRANSITIONS[27].to == POST_FUNDING_PENDING;
  }

  lemma ReachFunding() returns (d: Deal)
    ensures Reachable(d) && Quiet(d) && d.state == POST_FUNDING_PENDING
  {
    var v := ReachVerified();
    LockConditions(v, v.orgId, [ADMIN]);
    NextIsReachable(v, DoTransition(v.orgId, LOCKED, [ADMIN]));
    var l := Moved(v, LOCKED);
    FundingIsInTable();
    ReachMoved(l, POST_FUNDING_PENDING);
    d := Moved(l, POST_FUNDING_PENDING);
  }

  /** A run funds a deal with one overdue obligation that blocks nothing: the clearance request is refused, the
      plain transition to GREEN_STAGE_2 succeeds. */
  lemma OverdueIsIgnoredInARun()
    ensures exists d :: Reachable(d) && Clear(d, d.orgId, [ADMIN], 1).error.Some?
                     && Transition(d, d.orgId, GREEN_STAGE_2, [ADMIN]).error.None?
  {
    var f := ReachFunding();
    var a := DoSideTables([], [], [Obligation(false, OB_PENDING, Some(0))], 0);
    NextIsReachable(f, a);
    var d := Handle(f, a).deal;
    assert d.obligations[0] in d.obligations && IsOverdue(d.obligations[0], 1);
    TransitionIgnoresOverdue(d, d.orgId, [ADMIN], 1);
  }

  // ----- The same data again -----

  /** A buyer whose identifiers are {"bb": null, "a": null}. */
  const IDENTIFIED := SOME_BUYER.(identifiers := Some(UNORDERED))

  /** The buyer is the one this patch wrote on the empty deal. */
  predicate HoldsIdentified(d: Deal) { d.buyer.live == Some(StoredBuyer(MergeBuyer(None, IDENTIFIED))) }

  lemma IdentifiedIsValid()
    ensures ValidBuyerPatch(IDENTIFIED) && !ComesBackAsSent(IDENTIFIED.identifiers)
  {
    UnorderedIsReordered();
  }

  lemma ReachIdentified() returns (d: Deal)
    ensures Reachable(d) && Quiet(d) && d.state == GREEN_STAGE_1 && HoldsIdentified(d)
  {
    CreatedIsReachable(EMPTY_DEAL);
    IdentifiedIsValid();
    BuyerPatched(EMPTY_DEAL, IDENTIFIED);
    NextIsReachable(EMPTY_DEAL, DoPatchBuyer(0, IDENTIFIED, None, []));
    d := ReachApproved(PatchBuyer(EMPTY_DEAL, 0, IDENTIFIED, None, []).deal);
  }

  lemma IdentifiedAgain(d: Deal)
    requires Quiet(d) && d.state == GREEN_STAGE_1 && HoldsIdentified(d)
    ensures var o := PatchBuyer(d, d.orgId, IDENTIFIED, None, []);
            o.error.None? && o.deal.buyer.live == d.buyer.live && o.deal.state == YELLOW
  {
    IdentifiedIsValid();
    BuyerMergedAgain(None, IDENTIFIED);
  }

  /** A run writes a buyer and approves the deal; then the request that wrote the buyer is sent again: it is
      accepted, the buyer stays as it was, and the approval is gone. */
  lemma SameDataRevokesApprovalInARun()
    ensures exists d :: Reachable(d) && d.state == GREEN_STAGE_1 && HoldsIdentified(d)
                     && var o := PatchBuyer(d, d.orgId, IDENTIFIED, None, []);
                        o.error.None? && o.deal.buyer.live == d.buyer.live && o.deal.state == YELLOW
  {
    var d := ReachIdentified();
    IdentifiedAgain(d);
  }

  // ----- Histories that do not replay -----

  /** The run of two requests on the empty deal. */
  lemma TwoSteps(a: Action, b: Action)
    requires ValidAction(a) && ValidAction(b)
    ensures var d1 := Handle(EMPTY_DEAL, a).deal;
            var d2 := Handle(d1, b).deal;
            RunTo([EMPTY_DEAL, d1, d2], [a, b], d2)
  {
    var d1 := Handle(EMPTY_DEAL, a).deal;
    assert RunTo([EMPTY_DEAL], [], EMPTY_DEAL);
    RunExtends([EMPTY_DEAL], [], EMPTY_DEAL, a);
    assert [EMPTY_DEAL] + [d1] == [EMPTY_DEAL, d1] && [] + [a] == [a];
    RunExtends([EMPTY_DEAL, d1], [a], d1, b);
    assert [EMPTY_DEAL, d1] + [Handle(d1, b).deal] == [EMPTY_DEAL, d1, Handle(d1, b).deal] && [a] + [b] == [a, b];
  }

  lemma NotWholeCents()
    ensures RoundCents(100.004) != 100.004
  {
    assert WholeCents(100.004) == 10000 by { assert 100.004 * 100.0 + 0.5 == 10000.9; }
  }

  const FRACTION := SOME_FINANCIALS.(amount := Some(100.004))

  lemma FractionIsNotWhole(d: Deal)
    requires Quiet(d) && d.state == DRAFT && d.orgId == 0 && d.financials.live.Some?
    ensures !GivesWholeCents(d, DoPatchFinancials(0, FRACTION, None, []))
  {
    FinancialsPatched(d, FRACTION);
    NotWholeCents();
  }

  /** A run of two patches, the later one of 100.004. */
  lemma FractionInARun()
    ensures exists d :: Reachable(d) && FinancialsTrackOk(d.financials) && !FinancialsReplayThroughout(d.financials.versions)
  {
    var a, b := DoPatchFinancials(0, SOME_FINANCIALS, None, []), DoPatchFinancials(0, FRACTION, None, []);
    var d1 := Handle(EMPTY_DEAL, a).deal;
    var d2 := Handle(d1, b).deal;
    TwoSteps(a, b);
    FinancialsPatched(EMPTY_DEAL, SOME_FINANCIALS);
    FractionIsNotWhole(d1);
    FractionEndsBadly([EMPTY_DEAL, d1, d2], [a, b], d2);
  }

  lemma FractionEndsBadly(ds: seq<Deal>, actions: seq<Action>, d: Deal)
    requires RunTo(ds, actions, d) && |actions| == 2 && !GivesWholeCents(ds[1], actions[1])
    ensures Reachable(d) && FinancialsTrackOk(d.financials) && !FinancialsReplayThroughout(d.financials.versions)
  {
    assert !WholeCentsAt(ds, actions, 1);
    RunKeepsHistory(ds, actions, 2);
    FinancialsRunReplays(ds, actions, 2);
  }

  const WITH_PROTO := SOME_BUYER.(address := Some([Entry(PROTO, Null)]))

  lemma ProtoComesBack()
    ensures !NoProto(ReadBack([Entry(PROTO, Null)]))
  {
    var fs: Fields := [Entry(PROTO, Null)];
    assert ValidFields(fs);
    assert Get(fs, PROTO) == Some(Null);
    StoringKeepsNoProto(fs);
  }

  lemma ProtoIsNotKept(d: Deal)
    requires Quiet(d) && d.state == DRAFT && d.orgId == 0 && d.buyer.live.Some? && NoProto(d.buyer.live.value.address)
    ensures !GivesSameProto(d, DoPatchBuyer(0, WITH_PROTO, None, []))
  {
    BuyerPatched(d, WITH_PROTO);
    ProtoComesBack();
  }

  lemma ProtoPatchIsValid()
    ensures ValidBuyerPatch(WITH_PROTO) && ValidBuyerPatch(SOME_BUYER)
  {
    var fs: Fields := [Entry(PROTO, Null)];
    assert ValidFields(fs);
  }

  lemma PlainBuyerFirst()
    ensures var d := Handle(EMPTY_DEAL, DoPatchBuyer(0, SOME_BUYER, None, [])).deal;
            Quiet(d) && d.state == DRAFT && d.orgId == 0 && d.buyer.live.Some? && NoProto(d.buyer.live.value.address)
  {
    BuyerPatched(EMPTY_DEAL, SOME_BUYER);
  }

  /** A run of two patches, the later one bringing in a "__proto__" key. */
  lemma ProtoInARun()
    ensures exists d :: Reachable(d) && BuyerTrackOk(d.buyer) && !BuyerReplaysThroughout(d.buyer.versions)
  {
    var a, b := DoPatchBuyer(0, SOME_BUYER, None, []), DoPatchBuyer(0, WITH_PROTO, None, []);
    var d1 := Handle(EMPTY_DEAL, a).deal;
    var d2 := Handle(d1, b).deal;
    ProtoPatchIsValid();
    TwoSteps(a, b);
    PlainBuyerFirst();
    ProtoIsNotKept(d1);
    ProtoEndsBadly([EMPTY_DEAL, d1, d2], [a, b], d2);
  }

  lemma ProtoEndsBadly(ds: seq<Deal>, actions: seq<Action>, d: Deal)
    requires RunTo(ds, actions, d) && |actions| == 2 && !GivesSameProto(ds[1], actions[1])
    ensures Reachable(d) && BuyerTrackOk(d.buyer) && !BuyerReplaysThroughout(d.buyer.versions)
  {
    assert !SameProtoAt(ds, actions, 1);
    RunKeepsHistory(ds, actions, 2);
    BuyerRunReplays(ds, actions, 2);
  }
}
