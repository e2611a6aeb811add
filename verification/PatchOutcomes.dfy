/** What a data patch leaves in the rows, field by field, read off the request and the row before it. */
module PatchOutcomes {
  import opened Wrappers
  import opened Texts
  import opened ObjectDiff
  import opened StoredJson
  import opened DealTable
  import opened DealData
  import opened Deal
  import opened VersionHistory
  import opened TransitionRights

  // ----- When a patch is accepted -----

  /** States in which the data of a deal may be edited. */
  predicate Editable(s: State) {
    s in {DRAFT, INVALID, RED, YELLOW, CONDITIONAL, GREEN_STAGE_1, APPROVED, DISCREPANCY_RESTRICTED}
  }

  /** The request names no version, or the one the record has. */
  predicate VersionMatches<S, D>(t: Track<S, D>, expected: Option<nat>) {
    expected.Some? ==> t.live.Some? && t.number == expected.value
  }

  predicate MayEdit(d: Deal, org: nat) { org == d.orgId && Editable(d.state) && !Held(d) }

  lemma EditCheck<S, D>(d: Deal, org: nat, t: Track<S, D>, expected: Option<nat>)
    ensures PatchBlock(d, org, CurrentVersion(t), expected).None? <==> MayEdit(d, org) && VersionMatches(t, expected)
  {
    HoldCheck(d, false);
  }

  /** Each of the three patches is accepted if and only if the deal is the organization's, in a state in which its data
      may be edited, under no hold, and of the version the request expects; financials need an amount at first. */
  lemma PatchAccepted(d: Deal, org: nat, b: BuyerPatch, v: VehiclePatch, f: FinancialsPatch, expected: Option<nat>, rules: seq<Rule>)
    ensures PatchBuyer(d, org, b, expected, rules).error.None? <==> MayEdit(d, org) && VersionMatches(d.buyer, expected)
    ensures PatchVehicle(d, org, v, expected, rules).error.None? <==> MayEdit(d, org) && VersionMatches(d.vehicle, expected)
    ensures PatchFinancials(d, org, f, expected, rules).error.None? <==>
              MayEdit(d, org) && VersionMatches(d.financials, expected) && (f.amount.Some? || d.financials.live.Some?)
  {
    EditCheck(d, org, d.buyer, expected);
    EditCheck(d, org, d.vehicle, expected);
    EditCheck(d, org, d.financials, expected);
  }

  // ----- The fields of the live row -----

  /** What the request gives is in the row, as its columns return it. */
  predicate BuyerAsSent(p: BuyerPatch, now: Buyer) {
    && (p.legalName.Some? ==> now.legalName == p.legalName.value)
    && (p.dob.Some? ==> now.dob == p.dob.value)
    && (p.address.Some? ==> now.address == ReadBack(p.address.value))
    && (p.identifiers.Some? ==> now.identifiers == ReadBack(p.identifiers.value))
  }

  /** What it does not give is as it was, or as a first row starts. */
  predicate BuyerAsBefore(p: BuyerPatch, before: Option<Buyer>, now: Buyer) {
    && (p.legalName.None? ==> now.legalName == if before.Some? then before.value.legalName else Units("Unknown"))
    && (p.dob.None? ==> now.dob == if before.Some? then before.value.dob else None)
    && (p.address.None? ==> now.address == if before.Some? then before.value.address else [])
    && (p.identifiers.None? ==> now.identifiers == if before.Some? then before.value.identifiers else [])
  }

  predicate VehicleAsSent(p: VehiclePatch, now: Vehicle) {
    && (p.vin.Some? ==> now.vin == p.vin.value)
    && (p.year.Some? ==> now.year == p.year.value)
    && (p.make.Some? ==> now.make == p.make.value)
    && (p.model.Some? ==> now.model == p.model.value)
    && (p.trim.Some? ==> now.trim == p.trim.value)
    && (p.mileage.Some? ==> now.mileage == p.mileage.value)
    && (p.raw.Some? ==> now.raw == ReadBack(p.raw.value))
  }

  predicate VehicleAsBefore(p: VehiclePatch, before: Option<Vehicle>, now: Vehicle) {
    && (p.vin.None? ==> now.vin == if before.Some? then before.value.vin else None)
    && (p.year.None? ==> now.year == if before.Some? then before.value.year else None)
    && (p.make.None? ==> now.make == if before.Some? then before.value.make else None)
    && (p.model.None? ==> now.model == if before.Some? then before.value.model else None)
    && (p.trim.None? ==> now.trim == if before.Some? then before.value.trim else None)
    && (p.mileage.None? ==> now.mileage == if before.Some? then before.value.mileage else None)
    && (p.raw.None? ==> now.raw == if before.Some? then before.value.raw else [])
  }

  predicate FinancialsAsSent(p: FinancialsPatch, now: Financials) {
    && (p.amount.Some? ==> now.amount == RoundCents(p.amount.value))
    && (p.aprBps.Some? ==> now.aprBps == p.aprBps.value)
    && (p.termMonths.Some? ==> now.termMonths == p.termMonths.value)
    && (p.payment.Some? ==> now.payment == ReadBack(p.payment.value))
    && (p.lender.Some? ==> now.lender == p.lender.value)
  }

  predicate FinancialsAsBefore(p: FinancialsPatch, before: Option<Financials>, now: Financials) {
    && (p.amount.None? ==> before.Some? && now.amount == before.value.amount)
    && (p.aprBps.None? ==> now.aprBps == if before.Some? then before.value.aprBps else None)
    && (p.termMonths.None? ==> now.termMonths == if before.Some? then before.value.termMonths else None)
    && (p.payment.None? ==> now.payment == if before.Some? then before.value.payment else [])
    && (p.lender.None? ==> now.lender == if before.Some? then before.value.lender else None)
  }

  /** The new version row holds the new live row, and where it came from. */
  predicate VersionAdded<S(==), D(==)>(t: Track<S, D>, t': Track<S, D>, source: State) {
    && t'.live.Some? && |t'.versions| == |t.versions| + 1 && t'.versions[..|t.versions|] == t.versions
    && var v := t'.versions[|t.versions|];
       && v.snapshot == t'.live.value && v.number == t'.number && v.sourceState == source
       && v.number == (if t.live.Some? then t.number + 1 else 1)
       && v.fromVersion == (if t.live.Some? then Some(t.number) else None)
  }

  /** Besides its own record a patch touches the state with its log, and what the rules open. */
  predicate NothingElse(d: Deal, d': Deal) {
    d' == d.(state := d'.state, log := d'.log, discrepancies := d'.discrepancies, validationVersion := d.validationVersion + 1)
  }

  lemma RecordingAddsVersion<S, D>(t: Track<S, D>, s: S, source: State, material: bool, diff: D)
    ensures VersionAdded(t, Recorded(t, s, source, material, diff), source)
    ensures Recorded(t, s, source, material, diff).live == Some(s)
  {
  }

  lemma BuyerPatchRecords(d: Deal, org: nat, p: BuyerPatch, expected: Option<nat>, rules: seq<Rule>)
    requires PatchBuyer(d, org, p, expected, rules).error.None?
    ensures var d' := PatchBuyer(d, org, p, expected, rules).deal;
            d'.buyer == RecordedBuyer(d.buyer, MergeBuyer(d.buyer.live, p), d.state) && NothingElse(d.(buyer := d'.buyer), d')
  {
  }

  lemma VehiclePatchRecords(d: Deal, org: nat, p: VehiclePatch, expected: Option<nat>, rules: seq<Rule>)
    requires PatchVehicle(d, org, p, expected, rules).error.None?
    ensures var d' := PatchVehicle(d, org, p, expected, rules).deal;
            d'.vehicle == RecordedVehicle(d.vehicle, MergeVehicle(d.vehicle.live, p), d.state) && NothingElse(d.(vehicle := d'.vehicle), d')
  {
  }

  lemma FinancialsPatchRecords(d: Deal, org: nat, p: FinancialsPatch, expected: Option<nat>, rules: seq<Rule>)
    requires PatchFinancials(d, org, p, expected, rules).error.None?
    ensures var d', m := PatchFinancials(d, org, p, expected, rules).deal, MergeFinancials(d.financials.live, p);
            m.Some? && d'.financials == RecordedFinancials(d.financials, m.value, d.state) && NothingElse(d.(financials := d'.financials), d')
  {
  }

  lemma UnknownName()
    ensures UNKNOWN == Units("Unknown")
  {
  }

  lemma EmptyComesBack()
    ensures ReadBack([]) == []
  {
  }

  lemma BuyerIsMerged(before: Option<Buyer>, p: BuyerPatch)
    requires before.Some? ==> IsStoredBuyer(before.value)
    ensures var now := StoredBuyer(MergeBuyer(before, p)); BuyerAsSent(p, now) && BuyerAsBefore(p, before, now)
  {
    UnknownName();
    EmptyComesBack();
  }

  lemma VehicleIsMerged(before: Option<Vehicle>, p: VehiclePatch)
    requires before.Some? ==> IsStoredVehicle(before.value)
    ensures var now := StoredVehicle(MergeVehicle(before, p)); VehicleAsSent(p, now) && VehicleAsBefore(p, before, now)
  {
    EmptyComesBack();
  }

  lemma FinancialsAreMerged(before: Option<Financials>, p: FinancialsPatch)
    requires before.Some? ==> IsStoredFinancials(before.value)
    requires MergeFinancials(before, p).Some?
    ensures var now := StoredFinancials(MergeFinancials(before, p).value); FinancialsAsSent(p, now) && FinancialsAsBefore(p, before, now)
  {
    EmptyComesBack();
  }

  /** An accepted buyer patch leaves each field as the request gives it, or as it was; a version row is added
      for it; and the other two records stay. */
  lemma BuyerPatchWrites(d: Deal, org: nat, p: BuyerPatch, expected: Option<nat>, rules: seq<Rule>)
    requires HistoryOk(d) && PatchBuyer(d, org, p, expected, rules).error.None?
    ensures var d' := PatchBuyer(d, org, p, expected, rules).deal;
            && VersionAdded(d.buyer, d'.buyer, d.state)
            && BuyerAsSent(p, d'.buyer.live.value) && BuyerAsBefore(p, d.buyer.live, d'.buyer.live.value)
            && NothingElse(d.(buyer := d'.buyer), d')
  {
    BuyerPatchRecords(d, org, p, expected, rules);
    LastIsOk(d);
    BuyerIsMerged(d.buyer.live, p);
    var m := MergeBuyer(d.buyer.live, p);
    RecordingAddsVersion(d.buyer, StoredBuyer(m), d.state, BuyerMaterial(d.buyer.live, m), StoredBuyerDiff(DiffBuyer(d.buyer.live, m)));
  }

  lemma VehiclePatchWrites(d: Deal, org: nat, p: VehiclePatch, expected: Option<nat>, rules: seq<Rule>)
    requires HistoryOk(d) && PatchVehicle(d, org, p, expected, rules).error.None?
    ensures var d' := PatchVehicle(d, org, p, expected, rules).deal;
            && VersionAdded(d.vehicle, d'.vehicle, d.state)
            && VehicleAsSent(p, d'.vehicle.live.value) && VehicleAsBefore(p, d.vehicle.live, d'.vehicle.live.value)
            && NothingElse(d.(vehicle := d'.vehicle), d')
  {
    VehiclePatchRecords(d, org, p, expected, rules);
    LastIsOk(d);
    VehicleIsMerged(d.vehicle.live, p);
    var m := MergeVehicle(d.vehicle.live, p);
    RecordingAddsVersion(d.vehicle, StoredVehicle(m), d.state, VehicleMaterial(d.vehicle.live, m), StoredVehicleDiff(DiffVehicle(d.vehicle.live, m)));
  }

  lemma FinancialsPatchWrites(d: Deal, org: nat, p: FinancialsPatch, expected: Option<nat>, rules: seq<Rule>)
    requires HistoryOk(d) && PatchFinancials(d, org, p, expected, rules).error.None?
    ensures var d' := PatchFinancials(d, org, p, expected, rules).deal;
            && VersionAdded(d.financials, d'.financials, d.state)
            && FinancialsAsSent(p, d'.financials.live.value) && FinancialsAsBefore(p, d.financials.live, d'.financials.live.value)
            && NothingElse(d.(financials := d'.financials), d')
  {
    FinancialsPatchRecords(d, org, p, expected, rules);
    LastIsOk(d);
    FinancialsAreMerged(d.financials.live, p);
    var m := MergeFinancials(d.financials.live, p).value;
    RecordingAddsVersion(d.financials, StoredFinancials(m), d.state, FinancialsMaterial(d.financials.live, m), StoredFinancialsDiff(DiffFinancials(d.financials.live, m)));
  }

  // ----- What a patch does to the state -----

  /** The request gives a value, and another one than is there. */
  predicate Changes<T(==)>(given: Option<T>, there: T) { given.Some? && given.value != there }

  /** A name and no name differ, but an empty name is no name. */
  predicate ChangesText(given: Option<Option<Text>>, there: Option<Text>) {
    given.Some? && given.value != there && !(given.value in {None, Some([])} && there in {None, Some([])})
  }

  /** The request changes a fact an approval rests on; the first row of a record always does. */
  predicate BuyerFactsChange(before: Option<Buyer>, p: BuyerPatch) {
    before.None? || Changes(p.legalName, before.value.legalName) || Changes(p.dob, before.value.dob)
                 || Changes(p.identifiers, before.value.identifiers)
  }

  predicate VehicleFactsChange(before: Option<Vehicle>, p: VehiclePatch) {
    before.None? || ChangesText(p.vin, before.value.vin) || Changes(p.year, before.value.year)
                 || ChangesText(p.make, before.value.make) || ChangesText(p.model, before.value.model)
  }

  predicate FinancialFactsChange(before: Option<Financials>, p: FinancialsPatch) {
    before.None? || Changes(p.amount, before.value.amount) || Changes(p.lender, before.value.lender)
                 || Changes(p.termMonths, before.value.termMonths) || Changes(p.aprBps, before.value.aprBps)
                 || Changes(p.payment, before.value.payment)
  }

  lemma BuyerMaterialIff(before: Option<Buyer>, p: BuyerPatch)
    requires ValidBuyerPatch(p) && (before.Some? ==> ValidBuyer(before.value))
    ensures BuyerMaterial(before, MergeBuyer(before, p)) <==> BuyerFactsChange(before, p)
  {
    if before.Some? { JsonChangedIff(before.value.identifiers, MergeBuyer(before, p).identifiers); }
  }

  lemma VehicleMaterialIff(before: Option<Vehicle>, p: VehiclePatch)
    ensures VehicleMaterial(before, MergeVehicle(before, p)) <==> VehicleFactsChange(before, p)
  {
  }

  lemma FinancialsMaterialIff(before: Option<Financials>, p: FinancialsPatch)
    requires ValidFinancialsPatch(p) && (before.Some? ==> ValidFields(before.value.payment)) && MergeFinancials(before, p).Some?
    ensures FinancialsMaterial(before, MergeFinancials(before, p).value) <==> FinancialFactsChange(before, p)
  {
    if before.Some? { JsonChangedIff(before.value.payment, MergeFinancials(before, p).value.payment); }
  }

  /** Where a deal falls whose facts changed. */
  function FallsTo(s: State): State {
    if s in {GREEN_STAGE_1, APPROVED} then YELLOW else if s in {YELLOW, CONDITIONAL} then DRAFT else s
  }

  /** The deal falls if facts changed, with a log row; otherwise its state stays. */
  predicate FallsIf(changed: bool, d: Deal, d': Deal) {
    && d'.state == (if changed then FallsTo(d.state) else d.state) && d'.phase == d.phase
    && d'.log == (if d'.state == d.state then d.log else d.log + [LogRow(d.state, d'.state)])
  }

  lemma DemotionFalls(d: Deal)
    ensures FallsIf(true, d, Demoted(d))
  {
  }

  /** An accepted patch that changes a fact takes an approval away, GREEN_STAGE_1 or APPROVED to YELLOW, and sends a
      validated deal back to DRAFT; one that changes none leaves the state. The version row says which it was. */
  lemma BuyerPatchDemotes(d: Deal, org: nat, p: BuyerPatch, expected: Option<nat>, rules: seq<Rule>)
    requires HistoryOk(d) && ValidBuyerPatch(p) && PatchBuyer(d, org, p, expected, rules).error.None?
    ensures var d' := PatchBuyer(d, org, p, expected, rules).deal;
            && FallsIf(BuyerFactsChange(d.buyer.live, p), d, d')
            && (d'.buyer.versions[|d.buyer.versions|].material <==> BuyerFactsChange(d.buyer.live, p))
  {
    LastIsOk(d);
    BuyerMaterialIff(d.buyer.live, p);
    DemotionFalls(d);
  }

  lemma VehiclePatchDemotes(d: Deal, org: nat, p: VehiclePatch, expected: Option<nat>, rules: seq<Rule>)
    requires PatchVehicle(d, org, p, expected, rules).error.None?
    ensures var d' := PatchVehicle(d, org, p, expected, rules).deal;
            && FallsIf(VehicleFactsChange(d.vehicle.live, p), d, d')
            && (d'.vehicle.versions[|d.vehicle.versions|].material <==> VehicleFactsChange(d.vehicle.live, p))
  {
    VehicleMaterialIff(d.vehicle.live, p);
    DemotionFalls(d);
  }

  lemma FinancialsPatchDemotes(d: Deal, org: nat, p: FinancialsPatch, expected: Option<nat>, rules: seq<Rule>)
    requires HistoryOk(d) && ValidFinancialsPatch(p) && PatchFinancials(d, org, p, expected, rules).error.None?
    ensures var d' := PatchFinancials(d, org, p, expected, rules).deal;
            && FallsIf(FinancialFactsChange(d.financials.live, p), d, d')
            && (d'.financials.versions[|d.financials.versions|].material <==> FinancialFactsChange(d.financials.live, p))
  {
    LastIsOk(d);
    FinancialsMaterialIff(d.financials.live, p);
    DemotionFalls(d);
  }
}
