/** The three data records of a deal: snapshots, patches, material-change classifiers, recorded diffs. */
module DealData {
  import opened Wrappers
  import opened Texts
  import opened Json
  import opened JsonText
  import opened KeyOrder
  import opened ObjectDiff
  import opened StoredJson

  // ----- Money: the column is Decimal(14, 2), rounding half away from zero -----

  function WholeCents(x: real): int {
    if x >= 0.0 then (x * 100.0 + 0.5).Floor else -((-x * 100.0 + 0.5).Floor)
  }

  function RoundCents(x: real): real {
    WholeCents(x) as real / 100.0
  }

  lemma RoundCentsIsIdempotent(x: real)
    ensures RoundCents(RoundCents(x)) == RoundCents(x)
  {
    var n := WholeCents(x);
    assert RoundCents(x) * 100.0 == n as real;
    assert -RoundCents(x) * 100.0 == (-n) as real;
    assert (n as real + 0.5).Floor == n;
    assert ((-n) as real + 0.5).Floor == -n;
  }

  function Cents(n: int): real { n as real / 100.0 }

  /** The column keeps whole cents, the nearest to the amount; of two as near the one farther from zero. */
  lemma RoundCentsIsNearest(x: real, n: int)
    ensures exists m :: RoundCents(x) == Cents(m)
    ensures var (kept, other) := (Distance(RoundCents(x), x), Distance(Cents(n), x));
            && kept <= other
            && (kept == other && Cents(n) != RoundCents(x) ==> if x >= 0.0 then Cents(n) < RoundCents(x) else Cents(n) > RoundCents(x))
  {
    assert RoundCents(x) == Cents(WholeCents(x));
    NearestCents(x * 100.0, n);
    assert RoundCents(x) * 100.0 == WholeCents(x) as real && Cents(n) * 100.0 == n as real;
  }

  function Distance(x: real, y: real): real { if x < y then y - x else x - y }

  lemma NearestCents(c: real, n: int)
    ensures var m := if c >= 0.0 then (c + 0.5).Floor else -((-c + 0.5).Floor);
            && Distance(m as real, c) <= Distance(n as real, c)
            && (Distance(m as real, c) == Distance(n as real, c) && n != m ==> if c >= 0.0 then n < m else n > m)
  {
  }

  // ----- Snapshots -----

  datatype Buyer = Buyer(legalName: Text, dob: Option<int>, address: Fields, identifiers: Fields)

  datatype Vehicle = Vehicle(
    vin: Option<Text>, year: Option<int>, make: Option<Text>, model: Option<Text>, trim: Option<Text>,
    mileage: Option<int>, raw: Fields)

  datatype Financials = Financials(
    amount: real, aprBps: Option<int>, termMonths: Option<int>, payment: Fields, lender: Option<Text>)

  predicate ValidBuyer(s: Buyer) { ValidFields(s.address) && ValidFields(s.identifiers) }

  // ----- Patches. An outer `None` is an absent field, an inner `None` an explicit null. -----

  datatype BuyerPatch = BuyerPatch(
    legalName: Option<Text>, dob: Option<Option<int>>, address: Option<Fields>, identifiers: Option<Fields>)

  datatype VehiclePatch = VehiclePatch(
    vin: Option<Option<Text>>, year: Option<Option<int>>, make: Option<Option<Text>>, model: Option<Option<Text>>,
    trim: Option<Option<Text>>, mileage: Option<Option<int>>, raw: Option<Fields>)

  datatype FinancialsPatch = FinancialsPatch(
    amount: Option<real>, aprBps: Option<Option<int>>, termMonths: Option<Option<int>>, payment: Option<Fields>,
    lender: Option<Option<Text>>)

  predicate ValidBuyerPatch(p: BuyerPatch) {
    && (p.address.Some? ==> ValidFields(p.address.value))
    && (p.identifiers.Some? ==> ValidFields(p.identifiers.value))
  }

  predicate ValidVehiclePatch(p: VehiclePatch) { p.raw.Some? ==> ValidFields(p.raw.value) }

  predicate ValidFinancialsPatch(p: FinancialsPatch) { p.payment.Some? ==> ValidFields(p.payment.value) }

  /** "Unknown" */
  const UNKNOWN: Text := [85, 110, 107, 110, 111, 119, 110]

  function MergeBuyer(prev: Option<Buyer>, p: BuyerPatch): Buyer {
    if prev.None? then
      Buyer(OrElse(p.legalName, UNKNOWN), OrElse(p.dob, None), OrElse(p.address, []), OrElse(p.identifiers, []))
    else
      var b := prev.value;
      Buyer(OrElse(p.legalName, b.legalName), OrElse(p.dob, b.dob), OrElse(p.address, b.address), OrElse(p.identifiers, b.identifiers))
  }

  function MergeVehicle(prev: Option<Vehicle>, p: VehiclePatch): Vehicle {
    var b := OrElse(prev, Vehicle(None, None, None, None, None, None, []));
    Vehicle(OrElse(p.vin, b.vin), OrElse(p.year, b.year), OrElse(p.make, b.make), OrElse(p.model, b.model),
            OrElse(p.trim, b.trim), OrElse(p.mileage, b.mileage), OrElse(p.raw, b.raw))
  }

  /** The amount is required on the first write. */
  function MergeFinancials(prev: Option<Financials>, p: FinancialsPatch): Option<Financials> {
    if p.amount.None? && prev.None? then None
    else
      var b := OrElse(prev, Financials(0.0, None, None, [], None));
      Some(Financials(OrElse(p.amount, b.amount), OrElse(p.aprBps, b.aprBps), OrElse(p.termMonths, b.termMonths),
                      OrElse(p.payment, b.payment), OrElse(p.lender, b.lender)))
  }

  // ----- What the columns make of a merged record -----

  function StoredBuyer(b: Buyer): Buyer { b.(address := ReadBack(b.address), identifiers := ReadBack(b.identifiers)) }

  function StoredVehicle(v: Vehicle): Vehicle { v.(raw := ReadBack(v.raw)) }

  function StoredFinancials(f: Financials): Financials { f.(amount := RoundCents(f.amount), payment := ReadBack(f.payment)) }

  /** The record is valid and as its columns return it. */
  predicate IsStoredBuyer(b: Buyer) { ValidBuyer(b) && InStoredOrder(b.address) && InStoredOrder(b.identifiers) }

  predicate IsStoredVehicle(v: Vehicle) { ValidFields(v.raw) && InStoredOrder(v.raw) }

  predicate IsStoredFinancials(f: Financials) {
    ValidFields(f.payment) && InStoredOrder(f.payment) && RoundCents(f.amount) == f.amount
  }

  lemma StoringBuyer(b: Buyer)
    requires ValidBuyer(b)
    ensures IsStoredBuyer(StoredBuyer(b))
  {
    ReadBackIsValid(b.address);
    ReadBackIsValid(b.identifiers);
    ReadBackIsStable(b.address);
    ReadBackIsStable(b.identifiers);
  }

  lemma StoringVehicle(v: Vehicle)
    requires ValidFields(v.raw)
    ensures IsStoredVehicle(StoredVehicle(v))
  {
    ReadBackIsValid(v.raw);
    ReadBackIsStable(v.raw);
  }

  lemma StoringFinancials(f: Financials)
    requires ValidFields(f.payment)
    ensures IsStoredFinancials(StoredFinancials(f))
  {
    ReadBackIsValid(f.payment);
    ReadBackIsStable(f.payment);
    RoundCentsIsIdempotent(f.amount);
  }

  // ----- Material change -----

  predicate JsonChanged(a: Fields, b: Fields) { Print(Obj(a)) != Print(Obj(b)) }

  predicate BuyerMaterial(before: Option<Buyer>, after: Buyer) {
    || before.None?
    || before.value.legalName != after.legalName
    || before.value.dob != after.dob
    || JsonChanged(before.value.identifiers, after.identifiers)
  }

  predicate VehicleMaterial(before: Option<Vehicle>, after: Vehicle) {
    || before.None?
    || OrElse(before.value.vin, []) != OrElse(after.vin, [])
    || before.value.year != after.year
    || OrElse(before.value.make, []) != OrElse(after.make, [])
    || OrElse(before.value.model, []) != OrElse(after.model, [])
  }

  predicate FinancialsMaterial(before: Option<Financials>, after: Financials) {
    || before.None?
    || before.value.amount != after.amount
    || before.value.lender != after.lender
    || before.value.termMonths != after.termMonths
    || before.value.aprBps != after.aprBps
    || JsonChanged(before.value.payment, after.payment)
  }

  /** The facts an approval rests on, with the identifiers and the payment plan as their JSON text. */
  datatype BuyerFacts = BuyerFacts(legalName: Text, dob: Option<int>, identifiers: Text)
  datatype VehicleFacts = VehicleFacts(vin: Text, year: Option<int>, make: Text, model: Text)
  datatype FinancialFacts = FinancialFacts(
    amount: real, lender: Option<Text>, termMonths: Option<int>, aprBps: Option<int>, payment: Text)

  function FactsOfBuyer(b: Buyer): BuyerFacts {
    BuyerFacts(b.legalName, b.dob, Print(Obj(b.identifiers)))
  }

  function FactsOfVehicle(v: Vehicle): VehicleFacts {
    VehicleFacts(OrElse(v.vin, []), v.year, OrElse(v.make, []), OrElse(v.model, []))
  }

  function FactsOfFinancials(f: Financials): FinancialFacts {
    FinancialFacts(f.amount, f.lender, f.termMonths, f.aprBps, Print(Obj(f.payment)))
  }

  // ----- Recorded diffs -----

  datatype BuyerDiff =
    | BuyerInitial
    | BuyerDiff(legalName: Option<Change<Text>>, dob: Option<Change<Option<int>>>,
                address: Option<ObjectChanges>, identifiers: Option<ObjectChanges>)

  datatype VehicleDiff =
    | VehicleInitial
    | VehicleDiff(vin: Option<Change<Option<Text>>>, year: Option<Change<Option<int>>>, make: Option<Change<Option<Text>>>,
                  model: Option<Change<Option<Text>>>, trim: Option<Change<Option<Text>>>,
                  mileage: Option<Change<Option<int>>>, raw: Option<Change<Fields>>)

  datatype FinancialsDiff =
    | FinancialsInitial
    | FinancialsDiff(amount: Option<Change<real>>, aprBps: Option<Change<Option<int>>>, termMonths: Option<Change<Option<int>>>,
                     lender: Option<Change<Option<Text>>>, payment: Option<Change<Fields>>)

  function Changed<T(==)>(a: T, b: T): Option<Change<T>> {
    if a == b then None else Some(Change(a, b))
  }

  function ChangedJson(a: Fields, b: Fields): Option<Change<Fields>> {
    if JsonChanged(a, b) then Some(Change(a, b)) else None
  }

  function DiffBuyer(before: Option<Buyer>, after: Buyer): BuyerDiff {
    if before.None? then BuyerInitial
    else
      var b := before.value;
      BuyerDiff(
        Changed(b.legalName, after.legalName), Changed(b.dob, after.dob),
        if JsonChanged(b.address, after.address) then Some(Diff(b.address, after.address)) else None,
        if JsonChanged(b.identifiers, after.identifiers) then Some(Diff(b.identifiers, after.identifiers)) else None)
  }

  function DiffVehicle(before: Option<Vehicle>, after: Vehicle): VehicleDiff {
    if before.None? then VehicleInitial
    else
      var b := before.value;
      VehicleDiff(Changed(b.vin, after.vin), Changed(b.year, after.year), Changed(b.make, after.make),
                  Changed(b.model, after.model), Changed(b.trim, after.trim), Changed(b.mileage, after.mileage),
                  ChangedJson(b.raw, after.raw))
  }

  function DiffFinancials(before: Option<Financials>, after: Financials): FinancialsDiff {
    if before.None? then FinancialsInitial
    else
      var b := before.value;
      FinancialsDiff(Changed(b.amount, after.amount), Changed(b.aprBps, after.aprBps),
                     Changed(b.termMonths, after.termMonths), Changed(b.lender, after.lender),
                     ChangedJson(b.payment, after.payment))
  }

  // ----- The diff column -----

  function StoredObjectPart(c: Option<ObjectChanges>): Option<ObjectChanges> {
    if c.Some? then Some(StoredChanges(c.value)) else None
  }

  function StoredWholeObject(c: Option<Change<Fields>>): Option<Change<Fields>> {
    if c.Some? then Some(Change(ReadBack(c.value.before), ReadBack(c.value.after))) else None
  }

  function StoredBuyerDiff(d: BuyerDiff): BuyerDiff {
    if d.BuyerInitial? then d else d.(address := StoredObjectPart(d.address), identifiers := StoredObjectPart(d.identifiers))
  }

  function StoredVehicleDiff(d: VehicleDiff): VehicleDiff {
    if d.VehicleInitial? then d else d.(raw := StoredWholeObject(d.raw))
  }

  function StoredFinancialsDiff(d: FinancialsDiff): FinancialsDiff {
    if d.FinancialsInitial? then d else d.(payment := StoredWholeObject(d.payment))
  }

  // ----- Replaying recorded diffs -----

  function After<T>(c: Option<Change<T>>, current: T): T { if c.Some? then c.value.after else current }

  function BeforeChange<T>(c: Option<Change<T>>, current: T): T { if c.Some? then c.value.before else current }

  /** A buyer up to the order of the keys of its two objects. */
  datatype BuyerView = BuyerView(legalName: Text, dob: Option<int>, address: map<Text, Json>, identifiers: map<Text, Json>)

  function ViewOfBuyer(b: Buyer): BuyerView {
    BuyerView(b.legalName, b.dob, AsMap(b.address), AsMap(b.identifiers))
  }

  function ReplayBuyer(v: BuyerView, d: BuyerDiff): BuyerView {
    if d.BuyerInitial? then v
    else BuyerView(After(d.legalName, v.legalName), After(d.dob, v.dob),
                   if d.address.Some? then Replay(v.address, d.address.value) else v.address,
                   if d.identifiers.Some? then Replay(v.identifiers, d.identifiers.value) else v.identifiers)
  }

  function UndoBuyer(v: BuyerView, d: BuyerDiff): BuyerView {
    if d.BuyerInitial? then v
    else BuyerView(BeforeChange(d.legalName, v.legalName), BeforeChange(d.dob, v.dob),
                   if d.address.Some? then Undo(v.address, d.address.value) else v.address,
                   if d.identifiers.Some? then Undo(v.identifiers, d.identifiers.value) else v.identifiers)
  }

  function ReplayVehicle(v: Vehicle, d: VehicleDiff): Vehicle {
    if d.VehicleInitial? then v
    else Vehicle(After(d.vin, v.vin), After(d.year, v.year), After(d.make, v.make), After(d.model, v.model),
                 After(d.trim, v.trim), After(d.mileage, v.mileage), After(d.raw, v.raw))
  }

  function UndoVehicle(v: Vehicle, d: VehicleDiff): Vehicle {
    if d.VehicleInitial? then v
    else Vehicle(BeforeChange(d.vin, v.vin), BeforeChange(d.year, v.year), BeforeChange(d.make, v.make),
                 BeforeChange(d.model, v.model), BeforeChange(d.trim, v.trim), BeforeChange(d.mileage, v.mileage),
                 BeforeChange(d.raw, v.raw))
  }

  function ReplayFinancials(f: Financials, d: FinancialsDiff): Financials {
    if d.FinancialsInitial? then f
    else Financials(After(d.amount, f.amount), After(d.aprBps, f.aprBps), After(d.termMonths, f.termMonths),
                    After(d.payment, f.payment), After(d.lender, f.lender))
  }

  function UndoFinancials(f: Financials, d: FinancialsDiff): Financials {
    if d.FinancialsInitial? then f
    else Financials(BeforeChange(d.amount, f.amount), BeforeChange(d.aprBps, f.aprBps),
                    BeforeChange(d.termMonths, f.termMonths), BeforeChange(d.payment, f.payment),
                    BeforeChange(d.lender, f.lender))
  }

  lemma JsonChangedIff(a: Fields, b: Fields)
    requires ValidFields(a) && ValidFields(b)
    ensures JsonChanged(a, b) <==> a != b
  {
    if !JsonChanged(a, b) { PrintInjective(Obj(a), Obj(b)); }
  }

  /** The two buyers agree on the key "__proto__" of both objects. */
  predicate SameProto(a: Buyer, b: Buyer) {
    Get(a.address, PROTO) == Get(b.address, PROTO) && Get(a.identifiers, PROTO) == Get(b.identifiers, PROTO)
  }

  lemma ObjectPartReplays(a: Fields, b: Fields)
    requires ValidFields(a) && ValidFields(b) && InStoredOrder(a)
    ensures var d, stored := StoredChanges(Diff(a, b)), ReadBack(b);
            && ((if JsonChanged(a, b) then Replay(AsMap(a), d) else AsMap(a)) == AsMap(stored) <==> Get(a, PROTO) == Get(stored, PROTO))
            && ((if JsonChanged(a, b) then Undo(AsMap(stored), d) else AsMap(stored)) == AsMap(a) <==> Get(a, PROTO) == Get(stored, PROTO))
  {
    JsonChangedIff(a, b);
    StoredDiffReplays(a, b);
  }

  /** A stored buyer diff takes the earlier snapshot to the later one, and its reversal back, exactly when no
      "__proto__" key changed. */
  lemma BuyerDiffReplays(before: Buyer, merged: Buyer)
    requires IsStoredBuyer(before) && ValidBuyer(merged)
    ensures var d, after := StoredBuyerDiff(DiffBuyer(Some(before), merged)), StoredBuyer(merged);
            && (ReplayBuyer(ViewOfBuyer(before), d) == ViewOfBuyer(after) <==> SameProto(before, after))
            && (UndoBuyer(ViewOfBuyer(after), d) == ViewOfBuyer(before) <==> SameProto(before, after))
  {
    ObjectPartReplays(before.address, merged.address);
    ObjectPartReplays(before.identifiers, merged.identifiers);
  }

  lemma VehicleDiffReplays(before: Vehicle, merged: Vehicle)
    requires IsStoredVehicle(before) && ValidFields(merged.raw)
    ensures var d, after := StoredVehicleDiff(DiffVehicle(Some(before), merged)), StoredVehicle(merged);
            ReplayVehicle(before, d) == after && UndoVehicle(after, d) == before
  {
    JsonChangedIff(before.raw, merged.raw);
  }

  /** A financials diff records the amount before rounding, the snapshot the amount after it: the replay
      is exact if and only if the amount was in whole cents. The reversal always is. */
  lemma FinancialsDiffReplays(before: Financials, merged: Financials)
    requires IsStoredFinancials(before) && ValidFields(merged.payment)
    ensures var d, after := StoredFinancialsDiff(DiffFinancials(Some(before), merged)), StoredFinancials(merged);
            && (ReplayFinancials(before, d) == after <==> RoundCents(merged.amount) == merged.amount)
            && UndoFinancials(after, d) == before
  {
    JsonChangedIff(before.payment, merged.payment);
  }

  // ----- Non-material patches leave the facts alone -----

  lemma BuyerFactsDecideMateriality(before: Buyer, merged: Buyer)
    requires IsStoredBuyer(before) && ValidBuyer(merged)
    ensures BuyerMaterial(Some(before), merged) <==> FactsOfBuyer(before) != FactsOfBuyer(merged)
    ensures !BuyerMaterial(Some(before), merged) ==> FactsOfBuyer(StoredBuyer(merged)) == FactsOfBuyer(before)
  {
    JsonChangedIff(before.identifiers, merged.identifiers);
  }

  lemma VehicleFactsDecideMateriality(before: Vehicle, merged: Vehicle)
    ensures VehicleMaterial(Some(before), merged) <==> FactsOfVehicle(before) != FactsOfVehicle(merged)
    ensures FactsOfVehicle(StoredVehicle(merged)) == FactsOfVehicle(merged)
  {
  }

  lemma FinancialFactsDecideMateriality(before: Financials, merged: Financials)
    requires IsStoredFinancials(before) && ValidFields(merged.payment)
    ensures FinancialsMaterial(Some(before), merged) <==> FactsOfFinancials(before) != FactsOfFinancials(merged)
    ensures !FinancialsMaterial(Some(before), merged) ==> FactsOfFinancials(StoredFinancials(merged)) == FactsOfFinancials(before)
  {
    JsonChangedIff(before.payment, merged.payment);
  }
}
