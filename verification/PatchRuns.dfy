/** Patches over whole runs: what sending one again does, and when the recorded history replays. */
module PatchRuns {
  import opened Wrappers
  import opened KeyOrder
  import opened ObjectDiff
  import opened StoredJson
  import opened DealTable
  import opened DealData
  import opened Deal
  import opened DealRuns
  import opened VersionHistory

  // ----- The same patch again -----

  /** The record has one version more, with the same contents. */
  predicate OneMoreVersion<S(==), D>(t: Track<S, D>, t': Track<S, D>) {
    |t'.versions| == |t.versions| + 1 && t'.live == t.live && t'.number == t.number + 1
  }

  /** The patch gives no such object, or one in the order its column returns. */
  predicate ComesBackAsSent(o: Option<Fields>) { o.Some? ==> InStoredOrder(o.value) }

  /** Whatever the recorded changes name goes from a value to itself. */
  predicate NamesNoChange(c: ObjectChanges) {
    forall k | k in c :: c[k].before == c[k].after
  }

  lemma StillPatchable(d: Deal, d': Deal)
    requires CanPatch(d.state) && HoldBlock(d, false).None? && d'.holds == d.holds && d'.orgId == d.orgId
    requires d'.state == d.state || DemotionTarget(d.state) == Some(d'.state)
    ensures CanPatch(d'.state) && HoldBlock(d', false).None?
  {
  }

  /** An object merged over `o`, stored, and merged once more. */
  lemma ObjectAgain(o: Option<Fields>, b: Fields)
    requires ValidFields(b) && (o.Some? ==> ValidFields(o.value))
    ensures var stored := ReadBack(OrElse(o, b));
            && (JsonChanged(stored, OrElse(o, stored)) <==> !ComesBackAsSent(o))
            && ReadBack(OrElse(o, stored)) == stored
            && ValidFields(stored) && InStoredOrder(stored)
  {
    ReadBackIsValid(OrElse(o, b));
    ReadBackIsStable(OrElse(o, b));
    JsonChangedIff(ReadBack(OrElse(o, b)), OrElse(o, ReadBack(OrElse(o, b))));
  }

  /** Between an object and its own stored form only the order of keys differs, and the diff column says so. */
  lemma ReorderedDiffNamesNoChange(fs: Fields)
    requires ValidFields(fs)
    ensures NamesNoChange(StoredChanges(Diff(ReadBack(fs), fs)))
  {
    var d := StoredChanges(Diff(ReadBack(fs), fs));
    ReadBackIsValid(fs);
    ReadBackIsStable(fs);
    forall k | k in d ensures d[k].before == d[k].after {
      GetReadBack(fs, k);
      GetReadBack(ReadBack(fs), k);
    }
  }

  /** The change recorded for an object sent again. */
  predicate PartRecordedAgain(o: Option<Fields>, c: Option<ObjectChanges>) {
    (c.Some? <==> !ComesBackAsSent(o)) && (c.Some? ==> NamesNoChange(c.value))
  }

  lemma PartAgain(o: Option<Fields>, b: Fields)
    requires ValidFields(b) && (o.Some? ==> ValidFields(o.value))
    ensures var stored := ReadBack(OrElse(o, b));
            var sent := OrElse(o, stored);
            PartRecordedAgain(o, StoredObjectPart(if JsonChanged(stored, sent) then Some(Diff(stored, sent)) else None))
  {
    ObjectAgain(o, b);
    if o.Some? { ReorderedDiffNamesNoChange(o.value); }
  }

  /** What the second of two equal buyer patches records. */
  predicate BuyerRecordedAgain(p: BuyerPatch, material: bool, diff: BuyerDiff) {
    && (material <==> !ComesBackAsSent(p.identifiers))
    && diff.BuyerDiff? && diff.legalName.None? && diff.dob.None?
    && PartRecordedAgain(p.address, diff.address)
    && PartRecordedAgain(p.identifiers, diff.identifiers)
  }

  /** Merging the patch over the record stored for it leaves the plain fields alone. */
  lemma BuyerFieldsAgain(before: Option<Buyer>, p: BuyerPatch)
    ensures var b := OrElse(before, Buyer([], None, [], []));
            var stored := StoredBuyer(MergeBuyer(before, p));
            && stored.address == ReadBack(OrElse(p.address, b.address))
            && stored.identifiers == ReadBack(OrElse(p.identifiers, b.identifiers))
            && MergeBuyer(Some(stored), p) ==
               stored.(address := OrElse(p.address, stored.address), identifiers := OrElse(p.identifiers, stored.identifiers))
  {
  }

  lemma BuyerComparedAgain(stored: Buyer, p: BuyerPatch, again: Buyer)
    requires again == stored.(address := OrElse(p.address, stored.address), identifiers := OrElse(p.identifiers, stored.identifiers))
    requires JsonChanged(stored.identifiers, again.identifiers) <==> !ComesBackAsSent(p.identifiers)
    requires PartRecordedAgain(p.address, StoredObjectPart(
               if JsonChanged(stored.address, again.address) then Some(Diff(stored.address, again.address)) else None))
    requires PartRecordedAgain(p.identifiers, StoredObjectPart(
               if JsonChanged(stored.identifiers, again.identifiers) then Some(Diff(stored.identifiers, again.identifiers)) else None))
    ensures BuyerRecordedAgain(p, BuyerMaterial(Some(stored), again), StoredBuyerDiff(DiffBuyer(Some(stored), again)))
  {
  }

  lemma BuyerMergedAgain(before: Option<Buyer>, p: BuyerPatch)
    requires ValidBuyerPatch(p) && (before.Some? ==> ValidBuyer(before.value))
    ensures var stored := StoredBuyer(MergeBuyer(before, p));
            var again := MergeBuyer(Some(stored), p);
            && StoredBuyer(again) == stored
            && BuyerRecordedAgain(p, BuyerMaterial(Some(stored), again), StoredBuyerDiff(DiffBuyer(Some(stored), again)))
  {
    var b := OrElse(before, Buyer([], None, [], []));
    var stored := StoredBuyer(MergeBuyer(before, p));
    BuyerFieldsAgain(before, p);
    ObjectAgain(p.address, b.address);
    ObjectAgain(p.identifiers, b.identifiers);
    PartAgain(p.address, b.address);
    PartAgain(p.identifiers, b.identifiers);
    BuyerComparedAgain(stored, p, MergeBuyer(Some(stored), p));
  }

  lemma BuyerPatchApplies(d: Deal, p: BuyerPatch, rules: seq<Rule>)
    requires CanPatch(d.state) && HoldBlock(d, false).None?
    ensures var o, m := PatchBuyer(d, d.orgId, p, None, rules), MergeBuyer(d.buyer.live, p);
            && o.error.None? && o.deal.buyer == RecordedBuyer(d.buyer, m, d.state)
            && (Stays(d, o.deal) <==> !BuyerMaterial(d.buyer.live, m) || DemotionTarget(d.state).None?)
  {
  }

  lemma BuyerPatchLeavesOpen(d: Deal, org: nat, p: BuyerPatch, expected: Option<nat>, rules: seq<Rule>)
    requires PatchBuyer(d, org, p, expected, rules).error.None?
    ensures var d' := PatchBuyer(d, org, p, expected, rules).deal;
            && org == d'.orgId && CanPatch(d'.state) && HoldBlock(d', false).None?
            && d'.buyer.live == Some(StoredBuyer(MergeBuyer(d.buyer.live, p)))
  {
    StillPatchable(d, PatchBuyer(d, org, p, expected, rules).deal);
  }

  /** An accepted buyer patch sent again changes no contents. It is material, and demotes, if and only if it gives
      identifiers in another order than their column returns: the comparison sees the order of keys. */
  lemma BuyerPatchAgain(d: Deal, org: nat, p: BuyerPatch, expected: Option<nat>, rules: seq<Rule>)
    requires HistoryOk(d) && ValidBuyerPatch(p) && PatchBuyer(d, org, p, expected, rules).error.None?
    ensures var d' := PatchBuyer(d, org, p, expected, rules).deal;
            var again := PatchBuyer(d', org, p, None, rules);
            && again.error.None? && OneMoreVersion(d'.buyer, again.deal.buyer)
            && (var v := again.deal.buyer.versions[|d'.buyer.versions|]; BuyerRecordedAgain(p, v.material, v.diff))
            && (Stays(d', again.deal) <==> ComesBackAsSent(p.identifiers) || DemotionTarget(d'.state).None?)
  {
    LastIsOk(d);
    var d' := PatchBuyer(d, org, p, expected, rules).deal;
    BuyerPatchLeavesOpen(d, org, p, expected, rules);
    BuyerMergedAgain(d.buyer.live, p);
    BuyerPatchApplies(d', p, rules);
  }

  /** What the second of two equal vehicle patches records. */
  predicate VehicleRecordedAgain(p: VehiclePatch, material: bool, diff: VehicleDiff) {
    && !material && diff.VehicleDiff?
    && var c := diff.raw;
       && diff == VehicleDiff(None, None, None, None, None, None, c)
       && (c.Some? <==> !ComesBackAsSent(p.raw)) && (c.Some? ==> c.value.before == c.value.after)
  }

  lemma VehicleMergedAgain(before: Option<Vehicle>, p: VehiclePatch)
    requires ValidVehiclePatch(p) && (before.Some? ==> ValidFields(before.value.raw))
    ensures var stored := StoredVehicle(MergeVehicle(before, p));
            var again := MergeVehicle(Some(stored), p);
            && StoredVehicle(again) == stored
            && VehicleRecordedAgain(p, VehicleMaterial(Some(stored), again), StoredVehicleDiff(DiffVehicle(Some(stored), again)))
  {
    var b := OrElse(before, Vehicle(None, None, None, None, None, None, []));
    ObjectAgain(p.raw, b.raw);
  }

  lemma VehiclePatchApplies(d: Deal, p: VehiclePatch, rules: seq<Rule>)
    requires CanPatch(d.state) && HoldBlock(d, false).None?
    ensures var o, m := PatchVehicle(d, d.orgId, p, None, rules), MergeVehicle(d.vehicle.live, p);
            && o.error.None? && o.deal.vehicle == RecordedVehicle(d.vehicle, m, d.state)
            && (Stays(d, o.deal) <==> !VehicleMaterial(d.vehicle.live, m) || DemotionTarget(d.state).None?)
  {
  }

  lemma VehiclePatchLeavesOpen(d: Deal, org: nat, p: VehiclePatch, expected: Option<nat>, rules: seq<Rule>)
    requires PatchVehicle(d, org, p, expected, rules).error.None?
    ensures var d' := PatchVehicle(d, org, p, expected, rules).deal;
            && org == d'.orgId && CanPatch(d'.state) && HoldBlock(d', false).None?
            && d'.vehicle.live == Some(StoredVehicle(MergeVehicle(d.vehicle.live, p)))
  {
    StillPatchable(d, PatchVehicle(d, org, p, expected, rules).deal);
  }

  /** An accepted vehicle patch sent again is never material; its diff is empty if and only if it gives no raw
      object in another order than its column returns. */
  lemma VehiclePatchAgain(d: Deal, org: nat, p: VehiclePatch, expected: Option<nat>, rules: seq<Rule>)
    requires HistoryOk(d) && ValidVehiclePatch(p) && PatchVehicle(d, org, p, expected, rules).error.None?
    ensures var d' := PatchVehicle(d, org, p, expected, rules).deal;
            var again := PatchVehicle(d', org, p, None, rules);
            && again.error.None? && Stays(d', again.deal) && OneMoreVersion(d'.vehicle, again.deal.vehicle)
            && (var v := again.deal.vehicle.versions[|d'.vehicle.versions|]; VehicleRecordedAgain(p, v.material, v.diff))
  {
    LastIsOk(d);
    var d' := PatchVehicle(d, org, p, expected, rules).deal;
    VehiclePatchLeavesOpen(d, org, p, expected, rules);
    VehicleMergedAgain(d.vehicle.live, p);
    VehiclePatchApplies(d', p, rules);
  }

  predicate WholeCentsOrNone(p: FinancialsPatch) {
    p.amount.Some? ==> RoundCents(p.amount.value) == p.amount.value
  }

  /** What the second of two equal financials patches records. */
  predicate FinancialsRecordedAgain(p: FinancialsPatch, material: bool, diff: FinancialsDiff) {
    && (material <==> !WholeCentsOrNone(p) || !ComesBackAsSent(p.payment))
    && diff.FinancialsDiff?
    && var a, c := diff.amount, diff.payment;
       && diff == FinancialsDiff(a, None, None, None, c)
       && (a.Some? <==> !WholeCentsOrNone(p)) && (a.Some? ==> a.value == Change(RoundCents(p.amount.value), p.amount.value))
       && (c.Some? <==> !ComesBackAsSent(p.payment)) && (c.Some? ==> c.value.before == c.value.after)
  }

  lemma FinancialsFieldsAgain(before: Option<Financials>, p: FinancialsPatch)
    requires MergeFinancials(before, p).Some?
    ensures var b := OrElse(before, Financials(0.0, None, None, [], None));
            var stored := StoredFinancials(MergeFinancials(before, p).value);
            && stored.amount == RoundCents(OrElse(p.amount, b.amount)) && stored.payment == ReadBack(OrElse(p.payment, b.payment))
            && MergeFinancials(Some(stored), p) ==
               Some(stored.(amount := OrElse(p.amount, stored.amount), payment := OrElse(p.payment, stored.payment)))
  {
  }

  lemma FinancialsComparedAgain(stored: Financials, p: FinancialsPatch, again: Financials)
    requires again == stored.(amount := OrElse(p.amount, stored.amount), payment := OrElse(p.payment, stored.payment))
    requires p.amount.Some? ==> stored.amount == RoundCents(p.amount.value)
    requires JsonChanged(stored.payment, again.payment) <==> !ComesBackAsSent(p.payment)
    requires ReadBack(again.payment) == stored.payment && InStoredOrder(stored.payment)
    ensures FinancialsRecordedAgain(p, FinancialsMaterial(Some(stored), again), StoredFinancialsDiff(DiffFinancials(Some(stored), again)))
  {
  }

  lemma FinancialsMergedAgain(before: Option<Financials>, p: FinancialsPatch)
    requires ValidFinancialsPatch(p) && (before.Some? ==> ValidFields(before.value.payment))
    requires MergeFinancials(before, p).Some?
    ensures var stored := StoredFinancials(MergeFinancials(before, p).value);
            var again := MergeFinancials(Some(stored), p);
            && again.Some? && StoredFinancials(again.value) == stored
            && FinancialsRecordedAgain(p, FinancialsMaterial(Some(stored), again.value),
                 StoredFinancialsDiff(DiffFinancials(Some(stored), again.value)))
  {
    var b := OrElse(before, Financials(0.0, None, None, [], None));
    var stored := StoredFinancials(MergeFinancials(before, p).value);
    FinancialsFieldsAgain(before, p);
    ObjectAgain(p.payment, b.payment);
    RoundCentsIsIdempotent(OrElse(p.amount, b.amount));
    FinancialsComparedAgain(stored, p, MergeFinancials(Some(stored), p).value);
  }

  lemma FinancialsPatchApplies(d: Deal, p: FinancialsPatch, rules: seq<Rule>)
    requires CanPatch(d.state) && HoldBlock(d, false).None?
    requires MergeFinancials(d.financials.live, p).Some?
    ensures var o, m := PatchFinancials(d, d.orgId, p, None, rules), MergeFinancials(d.financials.live, p).value;
            && o.error.None? && o.deal.financials == RecordedFinancials(d.financials, m, d.state)
            && (Stays(d, o.deal) <==> !FinancialsMaterial(d.financials.live, m) || DemotionTarget(d.state).None?)
  {
  }

  lemma FinancialsPatchLeavesOpen(d: Deal, org: nat, p: FinancialsPatch, expected: Option<nat>, rules: seq<Rule>)
    requires PatchFinancials(d, org, p, expected, rules).error.None?
    ensures var d' := PatchFinancials(d, org, p, expected, rules).deal;
            && org == d'.orgId && CanPatch(d'.state) && HoldBlock(d', false).None?
            && MergeFinancials(d.financials.live, p).Some? && d'.financials.live == Some(StoredFinancials(MergeFinancials(d.financials.live, p).value))
  {
    StillPatchable(d, PatchFinancials(d, org, p, expected, rules).deal);
  }

  /** An accepted financials patch sent again is immaterial if and only if it gives no fraction of a cent, and no
      payment object in another order than its column returns. If it does, each repetition is material once more,
      and demotes. */
  lemma FinancialsPatchAgain(d: Deal, org: nat, p: FinancialsPatch, expected: Option<nat>, rules: seq<Rule>)
    requires HistoryOk(d) && ValidFinancialsPatch(p) && PatchFinancials(d, org, p, expected, rules).error.None?
    ensures var d' := PatchFinancials(d, org, p, expected, rules).deal;
            var again := PatchFinancials(d', org, p, None, rules);
            && again.error.None? && OneMoreVersion(d'.financials, again.deal.financials)
            && (var v := again.deal.financials.versions[|d'.financials.versions|]; FinancialsRecordedAgain(p, v.material, v.diff))
            && (Stays(d', again.deal) <==>
                (WholeCentsOrNone(p) && ComesBackAsSent(p.payment)) || DemotionTarget(d'.state).None?)
  {
    LastIsOk(d);
    var d' := PatchFinancials(d, org, p, expected, rules).deal;
    FinancialsPatchLeavesOpen(d, org, p, expected, rules);
    FinancialsMergedAgain(d.financials.live, p);
    FinancialsPatchApplies(d', p, rules);
  }

  // ----- When the recorded history replays -----

  /** If the request is an accepted patch of existing financials, it gives no fraction of a cent. */
  predicate GivesWholeCents(d: Deal, a: Action) {
    a.DoPatchFinancials? && Handle(d, a).error.None? && d.financials.live.Some? ==> WholeCentsOrNone(a.financialsPatch)
  }

  /** If the request is an accepted patch of an existing buyer, the objects it gives keep their "__proto__" key. */
  predicate GivesSameProto(d: Deal, a: Action) {
    a.DoPatchBuyer? && Handle(d, a).error.None? && d.buyer.live.Some? ==>
      SameProto(d.buyer.live.value, StoredBuyer(MergeBuyer(d.buyer.live, a.buyerPatch)))
  }

  lemma FinancialsVersionAdded(t: Track<Financials, FinancialsDiff>, m: Financials, source: State)
    requires FinancialsTrackOk(t)
    ensures var vs := RecordedFinancials(t, m, source).versions;
            WholeCentsThroughout(vs) <==> WholeCentsThroughout(t.versions) && (t.live.Some? ==> RoundCents(m.amount) == m.amount)
  {
    var vs := RecordedFinancials(t, m, source).versions;
    var n := |t.versions|;
    assert vs[..n] == t.versions;
    forall k | 0 < k < n ensures InWholeCents(vs, k) <==> InWholeCents(t.versions, k) {
      assert Previous(vs, k) == Previous(t.versions, k) && vs[k] == t.versions[k];
    }
    if n > 0 {
      assert Previous(vs, n) == t.live;
      assert InWholeCents(vs, n) <==> RoundCents(m.amount) == m.amount;
    }
    if WholeCentsThroughout(vs) {
      forall k | 0 < k < n ensures InWholeCents(t.versions, k) { assert InWholeCents(vs, k); }
    }
  }

  lemma BuyerVersionAdded(t: Track<Buyer, BuyerDiff>, m: Buyer, source: State)
    requires BuyerTrackOk(t)
    ensures var vs := RecordedBuyer(t, m, source).versions;
            ProtoKeptThroughout(vs) <==> ProtoKeptThroughout(t.versions) && (t.live.Some? ==> SameProto(t.live.value, StoredBuyer(m)))
  {
    var vs := RecordedBuyer(t, m, source).versions;
    var n := |t.versions|;
    forall k | 0 < k < n ensures KeepsProto(vs, k) <==> KeepsProto(t.versions, k) {
      assert vs[k] == t.versions[k] && vs[k - 1] == t.versions[k - 1];
    }
    if n > 0 { assert KeepsProto(vs, n) <==> SameProto(t.live.value, StoredBuyer(m)); }
    if ProtoKeptThroughout(vs) {
      forall k | 0 < k < n ensures KeepsProto(t.versions, k) { assert KeepsProto(vs, k); }
    }
  }

  /** A financials patch is recorded exactly when it is accepted; no other request touches the financials. */
  lemma FinancialsAreRecorded(d: Deal, a: Action)
    ensures var d', o := Handle(d, a).deal, Handle(d, a);
            if a.DoPatchFinancials? && o.error.None? then
              var m := MergeFinancials(d.financials.live, a.financialsPatch);
              m.Some? && d'.financials == RecordedFinancials(d.financials, m.value, d.state)
            else d'.financials == d.financials
  {
    if !a.DoPatchFinancials? { StepRecordsOneTrack(d, a); }
  }

  lemma BuyerIsRecorded(d: Deal, a: Action)
    ensures var d', o := Handle(d, a).deal, Handle(d, a);
            if a.DoPatchBuyer? && o.error.None? then
              d'.buyer == RecordedBuyer(d.buyer, MergeBuyer(d.buyer.live, a.buyerPatch), d.state)
            else d'.buyer == d.buyer
  {
    if !a.DoPatchBuyer? { StepRecordsOneTrack(d, a); }
  }

  lemma MergedAmountIsWhole(f: Option<Financials>, p: FinancialsPatch)
    requires f.Some? && RoundCents(f.value.amount) == f.value.amount
    ensures var m := MergeFinancials(f, p).value.amount; RoundCents(m) == m <==> WholeCentsOrNone(p)
  {
  }

  lemma StepKeepsWholeCents(d: Deal, a: Action)
    requires HistoryOk(d)
    ensures WholeCentsThroughout(Handle(d, a).deal.financials.versions) <==>
            WholeCentsThroughout(d.financials.versions) && GivesWholeCents(d, a)
  {
    FinancialsAreRecorded(d, a);
    if a.DoPatchFinancials? && Handle(d, a).error.None? {
      LastIsOk(d);
      var m := MergeFinancials(d.financials.live, a.financialsPatch).value;
      FinancialsVersionAdded(d.financials, m, d.state);
      if d.financials.live.Some? { MergedAmountIsWhole(d.financials.live, a.financialsPatch); }
    }
  }

  lemma StepKeepsProto(d: Deal, a: Action)
    requires HistoryOk(d)
    ensures ProtoKeptThroughout(Handle(d, a).deal.buyer.versions) <==>
            ProtoKeptThroughout(d.buyer.versions) && GivesSameProto(d, a)
  {
    BuyerIsRecorded(d, a);
    if a.DoPatchBuyer? && Handle(d, a).error.None? {
      BuyerVersionAdded(d.buyer, MergeBuyer(d.buyer.live, a.buyerPatch), d.state);
    }
  }

  predicate WholeCentsAt(ds: seq<Deal>, actions: seq<Action>, k: nat)
    requires k < |ds| && k < |actions|
  {
    GivesWholeCents(ds[k], actions[k])
  }

  predicate SameProtoAt(ds: seq<Deal>, actions: seq<Action>, k: nat)
    requires k < |ds| && k < |actions|
  {
    GivesSameProto(ds[k], actions[k])
  }

  predicate AllWholeCents(ds: seq<Deal>, actions: seq<Action>, n: nat)
    requires |ds| == |actions| + 1 && n < |ds|
  {
    forall k | 0 <= k < n :: WholeCentsAt(ds, actions, k)
  }

  predicate AllSameProto(ds: seq<Deal>, actions: seq<Action>, n: nat)
    requires |ds| == |actions| + 1 && n < |ds|
  {
    forall k | 0 <= k < n :: SameProtoAt(ds, actions, k)
  }

  lemma WholeCentsNext(ds: seq<Deal>, actions: seq<Action>, k: nat)
    requires Run(ds, actions) && k < |actions|
    ensures WholeCentsThroughout(ds[k + 1].financials.versions) <==>
            WholeCentsThroughout(ds[k].financials.versions) && WholeCentsAt(ds, actions, k)
  {
    RunKeepsHistory(ds, actions, k);
    RunStep(ds, actions, k);
    StepKeepsWholeCents(ds[k], actions[k]);
  }

  /** A condition that is kept step by step exactly when each step is good. */
  predicate KeptExactlyAt(holds: seq<bool>, good: seq<bool>, k: nat)
    requires |holds| == |good| + 1 && k < |good|
  {
    holds[k + 1] == (holds[k] && good[k])
  }

  lemma {:induction false} KeptExactly(holds: seq<bool>, good: seq<bool>, n: nat)
    requires |holds| == |good| + 1 && n <= |good| && holds[0]
    requires forall k | 0 <= k < |good| :: KeptExactlyAt(holds, good, k)
    ensures holds[n] <==> forall k | 0 <= k < n :: good[k]
  {
    if n > 0 {
      KeptExactly(holds, good, n - 1);
      assert KeptExactlyAt(holds, good, n - 1);
    }
  }

  lemma RunWholeCents(ds: seq<Deal>, actions: seq<Action>, n: nat)
    requires Run(ds, actions) && n < |ds|
    ensures WholeCentsThroughout(ds[n].financials.versions) <==> AllWholeCents(ds, actions, n)
  {
    var holds := seq(|ds|, k requires 0 <= k < |ds| => WholeCentsThroughout(ds[k].financials.versions));
    var good := seq(|actions|, k requires 0 <= k < |actions| && |ds| == |actions| + 1 => WholeCentsAt(ds, actions, k));
    RunStart(ds, actions);
    forall k | 0 <= k < |good| ensures KeptExactlyAt(holds, good, k) { WholeCentsNext(ds, actions, k); }
    KeptExactly(holds, good, n);
    assert forall k | 0 <= k < n :: good[k] == WholeCentsAt(ds, actions, k);
  }

  lemma RunStart(ds: seq<Deal>, actions: seq<Action>)
    requires Run(ds, actions)
    ensures ds[0].buyer == EmptyTrack() && ds[0].financials == EmptyTrack()
  {
  }

  lemma SameProtoNext(ds: seq<Deal>, actions: seq<Action>, k: nat)
    requires Run(ds, actions) && k < |actions|
    ensures ProtoKeptThroughout(ds[k + 1].buyer.versions) <==>
            ProtoKeptThroughout(ds[k].buyer.versions) && SameProtoAt(ds, actions, k)
  {
    RunKeepsHistory(ds, actions, k);
    RunStep(ds, actions, k);
    StepKeepsProto(ds[k], actions[k]);
  }

  lemma RunSameProto(ds: seq<Deal>, actions: seq<Action>, n: nat)
    requires Run(ds, actions) && n < |ds|
    ensures ProtoKeptThroughout(ds[n].buyer.versions) <==> AllSameProto(ds, actions, n)
  {
    var holds := seq(|ds|, k requires 0 <= k < |ds| => ProtoKeptThroughout(ds[k].buyer.versions));
    var good := seq(|actions|, k requires 0 <= k < |actions| && |ds| == |actions| + 1 => SameProtoAt(ds, actions, k));
    RunStart(ds, actions);
    forall k | 0 <= k < |good| ensures KeptExactlyAt(holds, good, k) { SameProtoNext(ds, actions, k); }
    KeptExactly(holds, good, n);
    assert forall k | 0 <= k < n :: good[k] == SameProtoAt(ds, actions, k);
  }

  /** In every run the stored financials diffs rebuild every snapshot if and only if every accepted patch after
      the first gave its amount in whole cents, or none. */
  lemma FinancialsRunReplays(ds: seq<Deal>, actions: seq<Action>, n: nat)
    requires Run(ds, actions) && n < |ds|
    ensures FinancialsReplayThroughout(ds[n].financials.versions) <==> AllWholeCents(ds, actions, n)
  {
    RunKeepsHistory(ds, actions, n);
    FinancialsHistoryReplays(ds[n].financials);
    RunWholeCents(ds, actions, n);
  }

  /** In every run the stored buyer diffs rebuild every snapshot, forwards and backwards, if and only if every
      accepted patch after the first kept the "__proto__" keys. */
  lemma BuyerRunReplays(ds: seq<Deal>, actions: seq<Action>, n: nat)
    requires Run(ds, actions) && n < |ds|
    ensures BuyerReplaysThroughout(ds[n].buyer.versions) <==> AllSameProto(ds, actions, n)
    ensures BuyerUndoesThroughout(ds[n].buyer.versions) <==> AllSameProto(ds, actions, n)
  {
    RunKeepsHistory(ds, actions, n);
    BuyerHistoryReplays(ds[n].buyer);
    BuyerHistoryUndoes(ds[n].buyer);
    RunSameProto(ds, actions, n);
  }

  // ----- Patches without "__proto__" keys -----

  predicate NoProto(fs: Fields) { Get(fs, PROTO).None? }

  /** The objects of a buyer patch have no "__proto__" key of their own. */
  predicate WithoutProto(a: Action) {
    a.DoPatchBuyer? ==>
      (a.buyerPatch.address.Some? ==> NoProto(a.buyerPatch.address.value))
      && (a.buyerPatch.identifiers.Some? ==> NoProto(a.buyerPatch.identifiers.value))
  }

  predicate BuyerWithoutProto(d: Deal) {
    d.buyer.live.Some? ==> NoProto(d.buyer.live.value.address) && NoProto(d.buyer.live.value.identifiers)
  }

  lemma StoringKeepsNoProto(fs: Fields)
    requires ValidFields(fs)
    ensures NoProto(ReadBack(fs)) <==> NoProto(fs)
  {
    GetReadBack(fs, PROTO);
  }

  lemma MergedWithoutProto(before: Option<Buyer>, p: BuyerPatch, after: Buyer)
    requires ValidBuyer(MergeBuyer(before, p)) && after == StoredBuyer(MergeBuyer(before, p))
    requires before.Some? ==> NoProto(before.value.address) && NoProto(before.value.identifiers)
    requires p.address.Some? ==> NoProto(p.address.value)
    requires p.identifiers.Some? ==> NoProto(p.identifiers.value)
    ensures NoProto(after.address) && NoProto(after.identifiers)
  {
    var m := MergeBuyer(before, p);
    assert NoProto(m.address) && NoProto(m.identifiers);
    StoringKeepsNoProto(m.address);
    StoringKeepsNoProto(m.identifiers);
  }

  lemma StepStaysWithoutProto(d: Deal, a: Action)
    requires HistoryOk(d) && ValidAction(a) && BuyerWithoutProto(d) && WithoutProto(a)
    ensures BuyerWithoutProto(Handle(d, a).deal) && GivesSameProto(d, a)
  {
    BuyerIsRecorded(d, a);
    MergedIsValid(d, a);
    if a.DoPatchBuyer? { MergedWithoutProto(d.buyer.live, a.buyerPatch, StoredBuyer(MergeBuyer(d.buyer.live, a.buyerPatch))); }
  }

  lemma WithoutProtoNext(ds: seq<Deal>, actions: seq<Action>, k: nat)
    requires Run(ds, actions) && k < |actions| && BuyerWithoutProto(ds[k]) && WithoutProto(actions[k])
    ensures BuyerWithoutProto(ds[k + 1]) && SameProtoAt(ds, actions, k)
  {
    RunStep(ds, actions, k);
    RunKeepsHistory(ds, actions, k);
    StepStaysWithoutProto(ds[k], actions[k]);
  }

  lemma {:induction false} RunStaysWithoutProto(ds: seq<Deal>, actions: seq<Action>, n: nat)
    requires Run(ds, actions) && n < |ds| && forall k | 0 <= k < n :: WithoutProto(actions[k])
    ensures BuyerWithoutProto(ds[n])
  {
    if n > 0 {
      RunStaysWithoutProto(ds, actions, n - 1);
      WithoutProtoNext(ds, actions, n - 1);
    } else {
      RunStart(ds, actions);
    }
  }

  lemma PlainRunKeepsProto(ds: seq<Deal>, actions: seq<Action>, n: nat)
    requires Run(ds, actions) && n < |ds| && forall k | 0 <= k < n :: WithoutProto(actions[k])
    ensures AllSameProto(ds, actions, n)
  {
    forall k | 0 <= k < n ensures SameProtoAt(ds, actions, k) {
      RunStaysWithoutProto(ds, actions, k);
      WithoutProtoNext(ds, actions, k);
    }
  }

  /** In every run of patches without "__proto__" keys the buyer's history replays, forwards and backwards. */
  lemma PlainRunsReplay(ds: seq<Deal>, actions: seq<Action>, n: nat)
    requires Run(ds, actions) && n < |ds| && forall k | 0 <= k < n :: WithoutProto(actions[k])
    ensures BuyerReplaysThroughout(ds[n].buyer.versions) && BuyerUndoesThroughout(ds[n].buyer.versions)
  {
    PlainRunKeepsProto(ds, actions, n);
    BuyerRunReplays(ds, actions, n);
  }
}
