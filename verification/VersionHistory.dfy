/** The version rows of a deal's records in any run: their numbering, and what their diffs rebuild. */
module VersionHistory {
  import opened Wrappers
  import opened ObjectDiff
  import opened DealTable
  import opened DealData
  import opened Deal

  /** Version row `i` is version i+1, and names version i as the one it follows. */
  predicate NumberedAt<S, D>(vs: seq<Version<S, D>>, i: nat)
    requires i < |vs|
  {
    vs[i].number == i + 1 && vs[i].fromVersion == if i == 0 then None else Some(i)
  }

  /** Versions are 1..n, each names its predecessor, and the last snapshot is the live row. */
  predicate Numbered<S(==), D>(t: Track<S, D>) {
    && t.number == |t.versions|
    && t.live == (if t.versions == [] then None else Some(t.versions[|t.versions| - 1].snapshot))
    && forall i | 0 <= i < |t.versions| :: NumberedAt(t.versions, i)
  }

  /** The snapshot before version `i`. */
  function Previous<S, D>(vs: seq<Version<S, D>>, i: nat): Option<S>
    requires i < |vs|
  {
    if i == 0 then None else Some(vs[i - 1].snapshot)
  }

  /** The amount that was merged into version `i`, before the column rounded it. */
  function MergedAmount(before: Option<Financials>, v: Version<Financials, FinancialsDiff>): real {
    if before.Some? && v.diff.FinancialsDiff? then After(v.diff.amount, before.value.amount) else v.snapshot.amount
  }

  /** The row was written for this merged record: the snapshot is its stored form, and the diff and the verdict
      compare it, as it was sent, with the snapshot before. */
  predicate BuyerWrittenFor(before: Option<Buyer>, m: Buyer, v: Version<Buyer, BuyerDiff>) {
    && ValidBuyer(m) && v.snapshot == StoredBuyer(m)
    && v.diff == StoredBuyerDiff(DiffBuyer(before, m)) && v.material == BuyerMaterial(before, m)
  }

  predicate VehicleWrittenFor(before: Option<Vehicle>, m: Vehicle, v: Version<Vehicle, VehicleDiff>) {
    && ValidFields(m.raw) && v.snapshot == StoredVehicle(m)
    && v.diff == StoredVehicleDiff(DiffVehicle(before, m)) && v.material == VehicleMaterial(before, m)
  }

  predicate FinancialsWrittenFor(before: Option<Financials>, m: Financials, v: Version<Financials, FinancialsDiff>) {
    && ValidFields(m.payment) && v.snapshot == StoredFinancials(m)
    && v.diff == StoredFinancialsDiff(DiffFinancials(before, m)) && v.material == FinancialsMaterial(before, m)
  }

  ghost predicate BuyerVersionOk(before: Option<Buyer>, v: Version<Buyer, BuyerDiff>) {
    exists m :: BuyerWrittenFor(before, m, v)
  }

  ghost predicate VehicleVersionOk(before: Option<Vehicle>, v: Version<Vehicle, VehicleDiff>) {
    exists m :: VehicleWrittenFor(before, m, v)
  }

  ghost predicate FinancialsVersionOk(before: Option<Financials>, v: Version<Financials, FinancialsDiff>) {
    exists m :: FinancialsWrittenFor(before, m, v)
  }

  ghost predicate BuyerVersionAt(vs: seq<Version<Buyer, BuyerDiff>>, i: nat)
    requires i < |vs|
  {
    BuyerVersionOk(Previous(vs, i), vs[i])
  }

  ghost predicate BuyerTrackOk(t: Track<Buyer, BuyerDiff>) {
    Numbered(t) && forall i | 0 <= i < |t.versions| :: BuyerVersionAt(t.versions, i)
  }

  ghost predicate VehicleVersionAt(vs: seq<Version<Vehicle, VehicleDiff>>, i: nat)
    requires i < |vs|
  {
    VehicleVersionOk(Previous(vs, i), vs[i])
  }

  ghost predicate VehicleTrackOk(t: Track<Vehicle, VehicleDiff>) {
    Numbered(t) && forall i | 0 <= i < |t.versions| :: VehicleVersionAt(t.versions, i)
  }

  ghost predicate FinancialsVersionAt(vs: seq<Version<Financials, FinancialsDiff>>, i: nat)
    requires i < |vs|
  {
    FinancialsVersionOk(Previous(vs, i), vs[i])
  }

  ghost predicate FinancialsTrackOk(t: Track<Financials, FinancialsDiff>) {
    Numbered(t) && forall i | 0 <= i < |t.versions| :: FinancialsVersionAt(t.versions, i)
  }

  ghost predicate HistoryOk(d: Deal) {
    BuyerTrackOk(d.buyer) && VehicleTrackOk(d.vehicle) && FinancialsTrackOk(d.financials)
  }

  lemma RecordedIsNumbered<S, D>(t: Track<S, D>, s: S, source: State, material: bool, diff: D)
    requires Numbered(t)
    ensures var r := Recorded(t, s, source, material, diff);
            && Numbered(r) && |r.versions| == |t.versions| + 1
            && r.versions[|t.versions|].snapshot == s && r.versions[|t.versions|].diff == diff
            && r.versions[|t.versions|].material == material
            && Previous(r.versions, |t.versions|) == t.live
  {
    var r := Recorded(t, s, source, material, diff);
    forall i | 0 <= i < |r.versions| ensures NumberedAt(r.versions, i) {
      if i < |t.versions| { assert NumberedAt(t.versions, i); }
    }
  }

  lemma EarlierVersionsStay<S, D>(t: Track<S, D>, s: S, source: State, material: bool, diff: D, i: nat)
    requires i < |t.versions|
    ensures var r := Recorded(t, s, source, material, diff);
            r.versions[i] == t.versions[i] && Previous(r.versions, i) == Previous(t.versions, i)
  {
  }

  lemma BuyerSnapshotIsStored(t: Track<Buyer, BuyerDiff>, k: nat)
    requires BuyerTrackOk(t) && k < |t.versions|
    ensures IsStoredBuyer(t.versions[k].snapshot)
  {
    assert BuyerVersionAt(t.versions, k);
    var m :| BuyerWrittenFor(Previous(t.versions, k), m, t.versions[k]);
    StoringBuyer(m);
  }

  lemma VehicleSnapshotIsStored(t: Track<Vehicle, VehicleDiff>, k: nat)
    requires VehicleTrackOk(t) && k < |t.versions|
    ensures IsStoredVehicle(t.versions[k].snapshot)
  {
    assert VehicleVersionAt(t.versions, k);
    var m :| VehicleWrittenFor(Previous(t.versions, k), m, t.versions[k]);
    StoringVehicle(m);
  }

  lemma FinancialsSnapshotIsStored(t: Track<Financials, FinancialsDiff>, k: nat)
    requires FinancialsTrackOk(t) && k < |t.versions|
    ensures IsStoredFinancials(t.versions[k].snapshot)
  {
    assert FinancialsVersionAt(t.versions, k);
    var m :| FinancialsWrittenFor(Previous(t.versions, k), m, t.versions[k]);
    StoringFinancials(m);
  }

  lemma LiveBuyerIsStored(t: Track<Buyer, BuyerDiff>)
    requires BuyerTrackOk(t)
    ensures t.live.Some? ==> IsStoredBuyer(t.live.value)
  {
    if t.versions != [] { BuyerSnapshotIsStored(t, |t.versions| - 1); }
  }

  lemma LiveVehicleIsStored(t: Track<Vehicle, VehicleDiff>)
    requires VehicleTrackOk(t)
    ensures t.live.Some? ==> IsStoredVehicle(t.live.value)
  {
    if t.versions != [] { VehicleSnapshotIsStored(t, |t.versions| - 1); }
  }

  lemma LiveFinancialsAreStored(t: Track<Financials, FinancialsDiff>)
    requires FinancialsTrackOk(t)
    ensures t.live.Some? ==> IsStoredFinancials(t.live.value)
  {
    if t.versions != [] { FinancialsSnapshotIsStored(t, |t.versions| - 1); }
  }

  /** The live rows are as their columns return them. */
  lemma LastIsOk(d: Deal)
    requires HistoryOk(d)
    ensures d.buyer.live.Some? ==> IsStoredBuyer(d.buyer.live.value)
    ensures d.vehicle.live.Some? ==> IsStoredVehicle(d.vehicle.live.value)
    ensures d.financials.live.Some? ==> IsStoredFinancials(d.financials.live.value)
  {
    LiveBuyerIsStored(d.buyer);
    LiveVehicleIsStored(d.vehicle);
    LiveFinancialsAreStored(d.financials);
  }

  lemma RecordedBuyerIsOk(t: Track<Buyer, BuyerDiff>, m: Buyer, source: State)
    requires BuyerTrackOk(t) && ValidBuyer(m)
    ensures BuyerTrackOk(RecordedBuyer(t, m, source))
  {
    var s, material, diff := StoredBuyer(m), BuyerMaterial(t.live, m), StoredBuyerDiff(DiffBuyer(t.live, m));
    var r := Recorded(t, s, source, material, diff);
    RecordedIsNumbered(t, s, source, material, diff);
    forall i | 0 <= i < |r.versions| ensures BuyerVersionAt(r.versions, i) {
      if i < |t.versions| {
        EarlierVersionsStay(t, s, source, material, diff, i);
        assert BuyerVersionAt(t.versions, i);
      } else {
        assert BuyerWrittenFor(t.live, m, r.versions[i]);
      }
    }
  }

  lemma RecordedVehicleIsOk(t: Track<Vehicle, VehicleDiff>, m: Vehicle, source: State)
    requires VehicleTrackOk(t) && ValidFields(m.raw)
    ensures VehicleTrackOk(RecordedVehicle(t, m, source))
  {
    var s, material, diff := StoredVehicle(m), VehicleMaterial(t.live, m), StoredVehicleDiff(DiffVehicle(t.live, m));
    var r := Recorded(t, s, source, material, diff);
    RecordedIsNumbered(t, s, source, material, diff);
    forall i | 0 <= i < |r.versions| ensures VehicleVersionAt(r.versions, i) {
      if i < |t.versions| {
        EarlierVersionsStay(t, s, source, material, diff, i);
        assert VehicleVersionAt(t.versions, i);
      } else {
        assert VehicleWrittenFor(t.live, m, r.versions[i]);
      }
    }
  }

  lemma RecordedFinancialsAreOk(t: Track<Financials, FinancialsDiff>, m: Financials, source: State)
    requires FinancialsTrackOk(t) && ValidFields(m.payment)
    ensures FinancialsTrackOk(RecordedFinancials(t, m, source))
  {
    var s, material, diff := StoredFinancials(m), FinancialsMaterial(t.live, m), StoredFinancialsDiff(DiffFinancials(t.live, m));
    var r := Recorded(t, s, source, material, diff);
    RecordedIsNumbered(t, s, source, material, diff);
    forall i | 0 <= i < |r.versions| ensures FinancialsVersionAt(r.versions, i) {
      if i < |t.versions| {
        EarlierVersionsStay(t, s, source, material, diff, i);
        assert FinancialsVersionAt(t.versions, i);
      } else {
        assert FinancialsWrittenFor(t.live, m, r.versions[i]);
      }
    }
  }

  /** A patch records one version of its own record, or nothing, and leaves the other two alone. */
  predicate OneTrackRecorded(d: Deal, a: Action, d': Deal) {
    match a
    case DoPatchBuyer(_, p, _, _) =>
      var merged := MergeBuyer(d.buyer.live, p);
      && d'.vehicle == d.vehicle && d'.financials == d.financials
      && (d'.buyer == d.buyer
          || d'.buyer == RecordedBuyer(d.buyer, merged, d.state))
    case DoPatchVehicle(_, p, _, _) =>
      var merged := MergeVehicle(d.vehicle.live, p);
      && d'.buyer == d.buyer && d'.financials == d.financials
      && (d'.vehicle == d.vehicle
          || d'.vehicle == RecordedVehicle(d.vehicle, merged, d.state))
    case DoPatchFinancials(_, p, _, _) =>
      var merged := MergeFinancials(d.financials.live, p);
      && d'.buyer == d.buyer && d'.vehicle == d.vehicle
      && (d'.financials == d.financials
          || (merged.Some? && d'.financials == RecordedFinancials(d.financials, merged.value, d.state)))
    case _ => d'.buyer == d.buyer && d'.vehicle == d.vehicle && d'.financials == d.financials
  }

  lemma StepRecordsOneTrack(d: Deal, a: Action)
    ensures OneTrackRecorded(d, a, Handle(d, a).deal)
  {
  }

  lemma MergedIsValid(d: Deal, a: Action)
    requires HistoryOk(d) && ValidAction(a)
    ensures a.DoPatchBuyer? ==> ValidBuyer(MergeBuyer(d.buyer.live, a.buyerPatch))
    ensures a.DoPatchVehicle? ==> ValidFields(MergeVehicle(d.vehicle.live, a.vehiclePatch).raw)
    ensures a.DoPatchFinancials? ==>
              var m := MergeFinancials(d.financials.live, a.financialsPatch); m.Some? ==> ValidFields(m.value.payment)
  {
    LastIsOk(d);
  }

  lemma StepKeepsHistory(d: Deal, a: Action)
    requires HistoryOk(d) && ValidAction(a)
    ensures HistoryOk(Handle(d, a).deal)
  {
    StepRecordsOneTrack(d, a);
    MergedIsValid(d, a);
    match a {
      case DoPatchBuyer(_, p, _, _) => RecordedBuyerIsOk(d.buyer, MergeBuyer(d.buyer.live, p), d.state);
      case DoPatchVehicle(_, p, _, _) => RecordedVehicleIsOk(d.vehicle, MergeVehicle(d.vehicle.live, p), d.state);
      case DoPatchFinancials(_, p, _, _) =>
        var merged := MergeFinancials(d.financials.live, p);
        if merged.Some? { RecordedFinancialsAreOk(d.financials, merged.value, d.state); }
      case _ =>
    }
  }

  lemma HistoryNext(ds: seq<Deal>, actions: seq<Action>, k: nat)
    requires Run(ds, actions) && k < |actions| && HistoryOk(ds[k])
    ensures HistoryOk(ds[k + 1])
  {
    RunStep(ds, actions, k);
    StepKeepsHistory(ds[k], actions[k]);
  }

  lemma HistoryStart(ds: seq<Deal>, actions: seq<Action>)
    requires Run(ds, actions)
    ensures HistoryOk(ds[0])
  {
  }

  /** After any sequence of requests the version rows of all three records are well numbered, end in the
      live row, and each was written for some merged record: its snapshot is that record as stored, its diff and
      its verdict compare that record as sent with the snapshot before. */
  lemma {:induction false} RunKeepsHistory(ds: seq<Deal>, actions: seq<Action>, n: nat)
    requires Run(ds, actions) && n < |ds|
    ensures HistoryOk(ds[n])
  {
    if n > 0 {
      RunKeepsHistory(ds, actions, n - 1);
      HistoryNext(ds, actions, n - 1);
    } else {
      HistoryStart(ds, actions);
    }
  }

  // ----- Optimistic versions -----

  predicate NumbersAtLeast(d: Deal, d': Deal) {
    d.buyer.number <= d'.buyer.number && d.vehicle.number <= d'.vehicle.number && d.financials.number <= d'.financials.number
  }

  lemma StepKeepsNumbers(d: Deal, a: Action)
    requires HistoryOk(d)
    ensures NumbersAtLeast(d, Handle(d, a).deal)
  {
    StepRecordsOneTrack(d, a);
  }

  lemma NumbersNext(ds: seq<Deal>, actions: seq<Action>, k: nat)
    requires Run(ds, actions) && k < |actions|
    ensures NumbersAtLeast(ds[k], ds[k + 1])
  {
    RunKeepsHistory(ds, actions, k);
    RunStep(ds, actions, k);
    StepKeepsNumbers(ds[k], actions[k]);
  }

  lemma {:induction false} NumbersNeverFall(ds: seq<Deal>, actions: seq<Action>, n: nat, m: nat)
    requires Run(ds, actions) && n <= m < |ds|
    ensures NumbersAtLeast(ds[n], ds[m])
    decreases m
  {
    if n < m {
      NumbersNeverFall(ds, actions, n, m - 1);
      NumbersNext(ds, actions, m - 1);
    }
  }

  /** The two requests patch the same record. */
  predicate SameRecord(a: Action, b: Action) {
    || (a.DoPatchBuyer? && b.DoPatchBuyer?)
    || (a.DoPatchVehicle? && b.DoPatchVehicle?)
    || (a.DoPatchFinancials? && b.DoPatchFinancials?)
  }

  /** The version number of the record the request patches. */
  function NumberFor(d: Deal, a: Action): nat {
    if a.DoPatchVehicle? then d.vehicle.number else if a.DoPatchFinancials? then d.financials.number else d.buyer.number
  }

  lemma PatchTakesTheVersion(d: Deal, a: Action)
    requires SameRecord(a, a) && a.expected.Some? && Handle(d, a).error.None?
    ensures NumberFor(Handle(d, a).deal, a) == a.expected.value + 1
  {
  }

  lemma StaleVersionIsRefused(d: Deal, a: Action)
    requires SameRecord(a, a) && a.expected.Some? && NumberFor(d, a) > a.expected.value
    ensures Handle(d, a).error.Some?
  {
  }

  lemma TakenNext(ds: seq<Deal>, actions: seq<Action>, k: nat)
    requires Run(ds, actions) && k < |actions| && SameRecord(actions[k], actions[k])
    requires actions[k].expected.Some? && Handle(ds[k], actions[k]).error.None?
    ensures NumberFor(ds[k + 1], actions[k]) == actions[k].expected.value + 1
  {
    RunStep(ds, actions, k);
    PatchTakesTheVersion(ds[k], actions[k]);
  }

  /** No lost update: once a patch with an expected version has succeeded, no later patch of the same record
      succeeds with that version again, whatever happened in between. */
  lemma VersionIsTakenOnce(ds: seq<Deal>, actions: seq<Action>, n: nat, m: nat, later: Action)
    requires Run(ds, actions) && n < m < |ds| && SameRecord(actions[n], later)
    requires actions[n].expected.Some? && later.expected == actions[n].expected
    requires Handle(ds[n], actions[n]).error.None?
    ensures Handle(ds[m], later).error.Some?
  {
    TakenNext(ds, actions, n);
    NumbersNeverFall(ds, actions, n + 1, m);
    StaleVersionIsRefused(ds[m], later);
  }

  // ----- Replaying and undoing a whole history -----

  /** Version 1 with the diffs of versions 2..i+1 replayed on it. */
  function ReplayedBuyer(vs: seq<Version<Buyer, BuyerDiff>>, i: nat): BuyerView
    requires i < |vs|
  {
    if i == 0 then ViewOfBuyer(vs[0].snapshot) else ReplayBuyer(ReplayedBuyer(vs, i - 1), vs[i].diff)
  }

  /** The last version with the later diffs undone, back to version i+1. */
  function UndoneBuyer(vs: seq<Version<Buyer, BuyerDiff>>, i: nat): BuyerView
    requires i < |vs|
    decreases |vs| - i
  {
    if i == |vs| - 1 then ViewOfBuyer(vs[i].snapshot) else UndoBuyer(UndoneBuyer(vs, i + 1), vs[i + 1].diff)
  }

  predicate BuyerReplayedAt(vs: seq<Version<Buyer, BuyerDiff>>, i: nat)
    requires i < |vs|
  {
    ReplayedBuyer(vs, i) == ViewOfBuyer(vs[i].snapshot)
  }

  predicate BuyerUndoneAt(vs: seq<Version<Buyer, BuyerDiff>>, i: nat)
    requires i < |vs|
  {
    UndoneBuyer(vs, i) == ViewOfBuyer(vs[i].snapshot)
  }

  /** Version k+1 keeps the "__proto__" keys of version k. */
  predicate KeepsProto(vs: seq<Version<Buyer, BuyerDiff>>, k: nat)
    requires 0 < k < |vs|
  {
    SameProto(vs[k - 1].snapshot, vs[k].snapshot)
  }

  lemma BuyerRowReplays(before: Buyer, v: Version<Buyer, BuyerDiff>)
    requires IsStoredBuyer(before) && BuyerVersionOk(Some(before), v)
    ensures ReplayBuyer(ViewOfBuyer(before), v.diff) == ViewOfBuyer(v.snapshot) <==> SameProto(before, v.snapshot)
    ensures UndoBuyer(ViewOfBuyer(v.snapshot), v.diff) == ViewOfBuyer(before) <==> SameProto(before, v.snapshot)
  {
    var m :| BuyerWrittenFor(Some(before), m, v);
    BuyerDiffReplays(before, m);
  }

  lemma BuyerVersionReplays(t: Track<Buyer, BuyerDiff>, k: nat)
    requires BuyerTrackOk(t) && 0 < k < |t.versions|
    ensures BuyerReplayedAt(t.versions, k - 1) ==> (BuyerReplayedAt(t.versions, k) <==> KeepsProto(t.versions, k))
    ensures BuyerUndoneAt(t.versions, k) ==> (BuyerUndoneAt(t.versions, k - 1) <==> KeepsProto(t.versions, k))
  {
    assert BuyerVersionAt(t.versions, k);
    BuyerSnapshotIsStored(t, k - 1);
    BuyerRowReplays(t.versions[k - 1].snapshot, t.versions[k]);
  }

  lemma {:induction false} BuyerReplaysWhileKept(t: Track<Buyer, BuyerDiff>, i: nat)
    requires BuyerTrackOk(t) && i < |t.versions|
    requires ProtoKeptThroughout(t.versions)
    ensures BuyerReplayedAt(t.versions, i)
  {
    if i > 0 {
      BuyerReplaysWhileKept(t, i - 1);
      BuyerVersionReplays(t, i);
    }
  }

  lemma {:induction false} BuyerUndoesWhileKept(t: Track<Buyer, BuyerDiff>, i: nat)
    requires BuyerTrackOk(t) && i < |t.versions|
    requires ProtoKeptThroughout(t.versions)
    ensures BuyerUndoneAt(t.versions, i)
    decreases |t.versions| - i
  {
    if i < |t.versions| - 1 {
      BuyerUndoesWhileKept(t, i + 1);
      BuyerVersionReplays(t, i + 1);
    }
  }

  predicate BuyerReplaysThroughout(vs: seq<Version<Buyer, BuyerDiff>>) {
    forall i | 0 <= i < |vs| :: BuyerReplayedAt(vs, i)
  }

  predicate BuyerUndoesThroughout(vs: seq<Version<Buyer, BuyerDiff>>) {
    forall i | 0 <= i < |vs| :: BuyerUndoneAt(vs, i)
  }

  predicate ProtoKeptThroughout(vs: seq<Version<Buyer, BuyerDiff>>) {
    forall k | 0 < k < |vs| :: KeepsProto(vs, k)
  }

  /** The buyer's diffs rebuild every snapshot (up to the order of object keys) if and only if no patch
      changed a "__proto__" key. */
  lemma BuyerHistoryReplays(t: Track<Buyer, BuyerDiff>)
    requires BuyerTrackOk(t)
    ensures BuyerReplaysThroughout(t.versions) <==> ProtoKeptThroughout(t.versions)
  {
    var vs := t.versions;
    if ProtoKeptThroughout(vs) {
      forall i | 0 <= i < |vs| ensures BuyerReplayedAt(vs, i) { BuyerReplaysWhileKept(t, i); }
    }
    if BuyerReplaysThroughout(vs) {
      forall k | 0 < k < |vs| ensures KeepsProto(vs, k) {
        assert BuyerReplayedAt(vs, k - 1) && BuyerReplayedAt(vs, k);
        BuyerVersionReplays(t, k);
      }
    }
  }

  /** Undoing the buyer's diffs from the last snapshot is exact under the same condition. */
  lemma BuyerHistoryUndoes(t: Track<Buyer, BuyerDiff>)
    requires BuyerTrackOk(t)
    ensures BuyerUndoesThroughout(t.versions) <==> ProtoKeptThroughout(t.versions)
  {
    var vs := t.versions;
    if ProtoKeptThroughout(vs) {
      forall i | 0 <= i < |vs| ensures BuyerUndoneAt(vs, i) { BuyerUndoesWhileKept(t, i); }
    }
    if BuyerUndoesThroughout(vs) {
      forall k | 0 < k < |vs| ensures KeepsProto(vs, k) {
        assert BuyerUndoneAt(vs, k - 1) && BuyerUndoneAt(vs, k);
        BuyerVersionReplays(t, k);
      }
    }
  }

  function ReplayedVehicle(vs: seq<Version<Vehicle, VehicleDiff>>, i: nat): Vehicle
    requires i < |vs|
  {
    if i == 0 then vs[0].snapshot else ReplayVehicle(ReplayedVehicle(vs, i - 1), vs[i].diff)
  }

  function UndoneVehicle(vs: seq<Version<Vehicle, VehicleDiff>>, i: nat): Vehicle
    requires i < |vs|
    decreases |vs| - i
  {
    if i == |vs| - 1 then vs[i].snapshot else UndoVehicle(UndoneVehicle(vs, i + 1), vs[i + 1].diff)
  }

  lemma VehicleRowReplays(before: Vehicle, v: Version<Vehicle, VehicleDiff>)
    requires IsStoredVehicle(before) && VehicleVersionOk(Some(before), v)
    ensures ReplayVehicle(before, v.diff) == v.snapshot && UndoVehicle(v.snapshot, v.diff) == before
  {
    var m :| VehicleWrittenFor(Some(before), m, v);
    VehicleDiffReplays(before, m);
  }

  lemma VehicleVersionReplays(t: Track<Vehicle, VehicleDiff>, k: nat)
    requires VehicleTrackOk(t) && 0 < k < |t.versions|
    ensures ReplayVehicle(t.versions[k - 1].snapshot, t.versions[k].diff) == t.versions[k].snapshot
    ensures UndoVehicle(t.versions[k].snapshot, t.versions[k].diff) == t.versions[k - 1].snapshot
  {
    assert VehicleVersionAt(t.versions, k);
    VehicleSnapshotIsStored(t, k - 1);
    VehicleRowReplays(t.versions[k - 1].snapshot, t.versions[k]);
  }

  /** The vehicle's diffs always rebuild every snapshot, forwards and backwards. */
  lemma {:induction false} VehicleHistoryReplays(t: Track<Vehicle, VehicleDiff>, i: nat)
    requires VehicleTrackOk(t) && i < |t.versions|
    ensures ReplayedVehicle(t.versions, i) == t.versions[i].snapshot
  {
    if i > 0 {
      VehicleHistoryReplays(t, i - 1);
      VehicleVersionReplays(t, i);
    }
  }

  lemma {:induction false} VehicleHistoryUndoes(t: Track<Vehicle, VehicleDiff>, i: nat)
    requires VehicleTrackOk(t) && i < |t.versions|
    ensures UndoneVehicle(t.versions, i) == t.versions[i].snapshot
    decreases |t.versions| - i
  {
    if i < |t.versions| - 1 {
      VehicleHistoryUndoes(t, i + 1);
      VehicleVersionReplays(t, i + 1);
    }
  }

  function ReplayedFinancials(vs: seq<Version<Financials, FinancialsDiff>>, i: nat): Financials
    requires i < |vs|
  {
    if i == 0 then vs[0].snapshot else ReplayFinancials(ReplayedFinancials(vs, i - 1), vs[i].diff)
  }

  function UndoneFinancials(vs: seq<Version<Financials, FinancialsDiff>>, i: nat): Financials
    requires i < |vs|
    decreases |vs| - i
  {
    if i == |vs| - 1 then vs[i].snapshot else UndoFinancials(UndoneFinancials(vs, i + 1), vs[i + 1].diff)
  }

  predicate FinancialsReplayedAt(vs: seq<Version<Financials, FinancialsDiff>>, i: nat)
    requires i < |vs|
  {
    ReplayedFinancials(vs, i) == vs[i].snapshot
  }

  /** The amount merged into version k+1 was given in whole cents. */
  predicate InWholeCents(vs: seq<Version<Financials, FinancialsDiff>>, k: nat)
    requires 0 < k < |vs|
  {
    RoundCents(MergedAmount(Previous(vs, k), vs[k])) == MergedAmount(Previous(vs, k), vs[k])
  }

  lemma FinancialsVersionReplays(t: Track<Financials, FinancialsDiff>, k: nat)
    requires FinancialsTrackOk(t) && 0 < k < |t.versions|
    ensures ReplayFinancials(t.versions[k - 1].snapshot, t.versions[k].diff) == t.versions[k].snapshot <==> InWholeCents(t.versions, k)
    ensures UndoFinancials(t.versions[k].snapshot, t.versions[k].diff) == t.versions[k - 1].snapshot
  {
    assert FinancialsVersionAt(t.versions, k);
    var m :| FinancialsWrittenFor(Previous(t.versions, k), m, t.versions[k]);
    assert MergedAmount(Previous(t.versions, k), t.versions[k]) == m.amount;
    FinancialsSnapshotIsStored(t, k - 1);
    FinancialsDiffReplays(t.versions[k - 1].snapshot, m);
  }

  lemma {:induction false} FinancialsReplayWhileWhole(t: Track<Financials, FinancialsDiff>, i: nat)
    requires FinancialsTrackOk(t) && i < |t.versions|
    requires WholeCentsThroughout(t.versions)
    ensures FinancialsReplayedAt(t.versions, i)
  {
    if i > 0 {
      FinancialsReplayWhileWhole(t, i - 1);
      FinancialsVersionReplays(t, i);
      assert InWholeCents(t.versions, i);
    }
  }

  predicate FinancialsReplayThroughout(vs: seq<Version<Financials, FinancialsDiff>>) {
    forall i | 0 <= i < |vs| :: FinancialsReplayedAt(vs, i)
  }

  predicate WholeCentsThroughout(vs: seq<Version<Financials, FinancialsDiff>>) {
    forall k | 0 < k < |vs| :: InWholeCents(vs, k)
  }

  /** The financials' diffs rebuild every snapshot if and only if every later amount was given in whole
      cents: the diff keeps the amount as given, the snapshot as rounded by the column. */
  lemma FinancialsHistoryReplays(t: Track<Financials, FinancialsDiff>)
    requires FinancialsTrackOk(t)
    ensures FinancialsReplayThroughout(t.versions) <==> WholeCentsThroughout(t.versions)
  {
    var vs := t.versions;
    if WholeCentsThroughout(vs) {
      forall i | 0 <= i < |vs| ensures FinancialsReplayedAt(vs, i) { FinancialsReplayWhileWhole(t, i); }
    }
    if FinancialsReplayThroughout(vs) {
      forall k | 0 < k < |vs| ensures InWholeCents(vs, k) {
        assert FinancialsReplayedAt(vs, k - 1) && FinancialsReplayedAt(vs, k);
        FinancialsVersionReplays(t, k);
      }
    }
  }

  /** Undoing the recorded diffs is exact whatever the amounts. */
  lemma {:induction false} FinancialsHistoryUndoes(t: Track<Financials, FinancialsDiff>, i: nat)
    requires FinancialsTrackOk(t) && i < |t.versions|
    ensures UndoneFinancials(t.versions, i) == t.versions[i].snapshot
    decreases |t.versions| - i
  {
    if i < |t.versions| - 1 {
      FinancialsHistoryUndoes(t, i + 1);
      FinancialsVersionReplays(t, i + 1);
    }
  }

  /** 100.004 over 100: the diff says 100.004, the column keeps 100. */
  lemma FractionsOfACentAreNotReplayed()
    ensures var before := Financials(100.0, None, None, [], None);
            var merged := before.(amount := 100.004);
            && RoundCents(before.amount) == before.amount
            && ReplayFinancials(before, StoredFinancialsDiff(DiffFinancials(Some(before), merged))) != StoredFinancials(merged)
  {
    var before := Financials(100.0, None, None, [], None);
    assert WholeCents(100.004) == 10000 by { assert 100.004 * 100.0 + 0.5 == 10000.9; }
    assert WholeCents(100.0) == 10000 by { assert 100.0 * 100.0 + 0.5 == 10000.5; }
    FinancialsDiffReplays(before, before.(amount := 100.004));
  }
}
