/** Approved data is locked data: from the approval on, through execution and lock, the facts the approval
    rested on do not change. */
module ApprovedData {
  import opened Wrappers
  import opened ObjectDiff
  import opened DealTable
  import opened DealData
  import opened Deal
  import opened DealRuns
  import opened VersionHistory

  /** The material facts of the three records. */
  datatype Facts = Facts(buyer: Option<BuyerFacts>, vehicle: Option<VehicleFacts>, financials: Option<FinancialFacts>)

  function FactsOf(d: Deal): Facts {
    Facts(
      if d.buyer.live.Some? then Some(FactsOfBuyer(d.buyer.live.value)) else None,
      if d.vehicle.live.Some? then Some(FactsOfVehicle(d.vehicle.live.value)) else None,
      if d.financials.live.Some? then Some(FactsOfFinancials(d.financials.live.value)) else None)
  }

  /** The states in which an approval is in force. */
  predicate InForce(s: State) { Approved(s) || Executed(s) || Sealed(s) }

  /** Request `n` brought the deal into an approved state. */
  predicate EntersApproval(ds: seq<Deal>, n: nat)
    requires n < |ds|
  {
    Approved(ds[n].state) && n > 0 && ds[n - 1].state != ds[n].state
  }

  /** The facts at the latest entry into an approved state, up to point `n`. */
  function LatestApprovedFacts(ds: seq<Deal>, n: nat): Option<Facts>
    requires n < |ds|
  {
    if EntersApproval(ds, n) then Some(FactsOf(ds[n]))
    else if n == 0 then None
    else LatestApprovedFacts(ds, n - 1)
  }

  lemma BuyerPatchKeepsFacts(d: Deal, org: nat, p: BuyerPatch, expected: Option<nat>, rules: seq<Rule>)
    requires d.buyer.live.Some? ==> IsStoredBuyer(d.buyer.live.value)
    requires ValidBuyer(MergeBuyer(d.buyer.live, p))
    requires InForce(d.state) && InForce(PatchBuyer(d, org, p, expected, rules).deal.state)
    ensures FactsOf(PatchBuyer(d, org, p, expected, rules).deal) == FactsOf(d)
  {
    var merged := MergeBuyer(d.buyer.live, p);
    if d.buyer.live.Some? { BuyerFactsDecideMateriality(d.buyer.live.value, merged); }
  }

  lemma VehiclePatchKeepsFacts(d: Deal, org: nat, p: VehiclePatch, expected: Option<nat>, rules: seq<Rule>)
    requires InForce(d.state) && InForce(PatchVehicle(d, org, p, expected, rules).deal.state)
    ensures FactsOf(PatchVehicle(d, org, p, expected, rules).deal) == FactsOf(d)
  {
    var merged := MergeVehicle(d.vehicle.live, p);
    if d.vehicle.live.Some? { VehicleFactsDecideMateriality(d.vehicle.live.value, merged); }
  }

  lemma FinancialsPatchKeepsFacts(d: Deal, org: nat, p: FinancialsPatch, expected: Option<nat>, rules: seq<Rule>)
    requires d.financials.live.Some? ==> IsStoredFinancials(d.financials.live.value)
    requires var m := MergeFinancials(d.financials.live, p); m.Some? ==> ValidFields(m.value.payment)
    requires InForce(d.state) && InForce(PatchFinancials(d, org, p, expected, rules).deal.state)
    ensures FactsOf(PatchFinancials(d, org, p, expected, rules).deal) == FactsOf(d)
  {
    var merged := MergeFinancials(d.financials.live, p);
    if d.financials.live.Some? && merged.Some? { FinancialFactsDecideMateriality(d.financials.live.value, merged.value); }
  }

  /** A request that leaves the approval in force leaves the facts alone: a material patch demotes the
      deal, or is refused. */
  lemma StepKeepsFacts(d: Deal, a: Action)
    requires HistoryOk(d) && ValidAction(a)
    requires InForce(d.state) && InForce(Handle(d, a).deal.state)
    ensures FactsOf(Handle(d, a).deal) == FactsOf(d)
  {
    LastIsOk(d);
    MergedIsValid(d, a);
    match a {
      case DoPatchBuyer(org, p, expected, rules) => BuyerPatchKeepsFacts(d, org, p, expected, rules);
      case DoPatchVehicle(org, p, expected, rules) => VehiclePatchKeepsFacts(d, org, p, expected, rules);
      case DoPatchFinancials(org, p, expected, rules) => FinancialsPatchKeepsFacts(d, org, p, expected, rules);
      case _ => StepRecordsOneTrack(d, a);
    }
  }

  /** The only way into an approval in force, other than from one, is an entry into an approved state. */
  lemma ApprovalComesFirst(d: Deal, a: Action, d': Deal)
    requires StateStep(d, a, d') && InForce(d'.state)
    ensures InForce(d.state) || (Approved(d'.state) && d.state != d'.state)
  {
    if Edge(d.state, d'.state) { EdgesAreOrdered(d.state, d'.state); }
  }

  lemma ApprovedBefore(ds: seq<Deal>, actions: seq<Action>, k: nat)
    requires Run(ds, actions) && k < |actions| && InForce(ds[k + 1].state) && !EntersApproval(ds, k + 1)
    ensures InForce(ds[k].state) && FactsOf(ds[k + 1]) == FactsOf(ds[k])
  {
    RunStep(ds, actions, k);
    StepIsStateStep(ds[k], actions[k]);
    ApprovalComesFirst(ds[k], actions[k], ds[k + 1]);
    RunKeepsHistory(ds, actions, k);
    StepKeepsFacts(ds[k], actions[k]);
  }

  /** In every run, administrator holds included: while the deal is approved, executed or sealed, its
      material facts are those of the latest entry into GREEN_STAGE_1 or APPROVED, and there was one. */
  lemma {:induction false} ApprovedDataIsLocked(ds: seq<Deal>, actions: seq<Action>, n: nat)
    requires Run(ds, actions) && n < |ds|
    requires InForce(ds[n].state)
    ensures LatestApprovedFacts(ds, n) == Some(FactsOf(ds[n]))
  {
    if n > 0 && !EntersApproval(ds, n) {
      ApprovedBefore(ds, actions, n - 1);
      ApprovedDataIsLocked(ds, actions, n - 1);
    }
  }
}
