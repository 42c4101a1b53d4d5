/**
 * States in which an operation breaks a rule: the smallest instances of conditions proved exact
 * elsewhere. An id compared as typed finds the record in another spelling, but not its
 * references; a backdated fitting overlaps; a returned device is judged by its earlier stretch.
 */
module KnownGaps {
  import opened Wrappers
  import opened Text
  import opened Records
  import opened Registry
  import opened Catalog
  import opened Fitting
  import opened FleetRules
  import opened Rules
  import opened History
  import opened Devices
  import opened DeviceTies

  /** An id as the database prints it, and the same id spelled otherwise. */
  predicate Respelled(low: string, high: string) {
    high != low && Trim(high) == high && Oid(high) == Some(low) && ObjectId(high) == Some(low) && ObjectId(low) == Some(low) && Oid(low) == Some(low)
  }

  lemma CapitalsRespell()
    ensures Respelled(seq(24, _ => 'a'), seq(24, _ => 'A'))
  {
    var low, high := seq(24, _ => 'a'), seq(24, _ => 'A');
    HexHasNoSpace(low);
    HexHasNoSpace(high);
    assert Lower(high) == low && Lower(low) == low;
    assert high[0] != low[0];
  }

  const TRUCK := Vehicle("c", "B", "B", None, None, None, None, None, None, "active", false)
  const CAMERA := Tracker(Some("c"), Dashcam, "x", "", None, "active", false)

  /** A camera fitted to a truck. */
  function Fitted(id: string): Db {
    Db(map[id := CAMERA], map[id := TRUCK], map[], [Assignment("c", id, id, Dashcam, "x", "", 0, None)], map[])
  }

  lemma FittedIsSound(id: string)
    ensures RegisterInv(Fitted(id)) && DeviceFitted(Fitted(id), id) && VehicleFitted(Fitted(id), id)
    ensures forall other :: other != id ==> !DeviceFitted(Fitted(id), other) && !VehicleFitted(Fitted(id), other)
  {
    assert Trim("x") == "x";
    assert RowSound(Fitted(id), Fitted(id).assignments[0]);
    assert Open(Fitted(id).assignments[0]);
  }

  /** Retired by its id spelled otherwise, a fitted device goes; so does a vehicle with a camera on it. */
  lemma RespelledIdRetiresWhatIsFitted(low: string, high: string)
    requires Respelled(low, high)
    ensures RegisterInv(Fitted(low))
    ensures !RegisterInv(DeleteTracker(Fitted(low), "c", high).0) && !RegisterInv(DeleteVehicle(Fitted(low), "c", high).0)
    ensures DeleteTracker(Fitted(low), "c", low).1 == Refused(Conflict) == DeleteVehicle(Fitted(low), "c", low).1
  {
    var db := Fitted(low);
    FittedIsSound(low);
    assert db.assignments[0] in db.assignments && Open(db.assignments[0]);
    DeleteTrackerKeepsExactly(db, "c", high);
    DeleteVehicleKeepsExactly(db, "c", high);
  }

  /** What staff type to hand a device to a company. */
  function HandedTo(company: string): TrackerInput {
    TrackerInput(None, None, None, None, Some(company), None)
  }

  lemma HandingIsAccepted(id: string)
    requires Canonical(id)
    ensures var (db', r) := UpdateTracker(Fitted(id), "", id, HandedTo("d"), true);
            r.Ok? && db'.assignments == Fitted(id).assignments && db'.trackers[id].companyId == Some("d")
  {
    assert Trim("d") == "d";
    assert !TrackerClash(Fitted(id).trackers, id, TrackerWritten(CAMERA.(companyId := Some("d"))));
  }

  /** Handed to another company while fitted, a device cannot be taken off by the company whose truck it is on, nor the truck retired. */
  lemma HandedDeviceIsStuck(id: string, at: Time)
    requires Canonical(id)
    ensures CustodyInv(Fitted(id))
    ensures var (db', r) := UpdateTracker(Fitted(id), "", id, HandedTo("d"), true);
      r.Ok? && Unfit(db', "c", id, at, ALL_WELL) == (db', Refused(NotFound)) && DeleteVehicle(db', "c", id) == (db', Refused(Conflict))
  {
    var db' := UpdateTracker(Fitted(id), "", id, HandedTo("d"), true).0;
    FittedIsSound(id);
    HandingIsAccepted(id);
    UpdateTrackerKeeps(Fitted(id), "", id, HandedTo("d"), true);
    assert Open(db'.assignments[0]) && !InCustody(db'.trackers, db'.assignments[0]);
    TakesOffExactly(db', 0, at);
    FittedTruckStays(db', 0);
  }

  /** A driver on a truck. */
  function Driven(id: string): Db {
    Db(map[], map[id := TRUCK.(currentDriverId := Some(id))], map[id := Driver("c", "n", "active", None, false)], [], map[])
  }

  /** Retired by its id spelled otherwise, a driver stays on the truck. */
  lemma RespelledIdLeavesTheDriver(low: string, high: string)
    requires Respelled(low, high)
    ensures PairInv(Driven(low)) && !PairInv(DeleteDriver(Driven(low), "c", high).0) && PairInv(DeleteDriver(Driven(low), "c", low).0)
  {
    var db := Driven(low);
    assert low in db.vehicles && DriverSound(db, db.vehicles[low]);
    DeleteDriverKeepsExactly(db, "c", high);
    DeleteDriverKeepsExactly(db, "c", low);
  }

  /** A truck in a group. */
  function Grouped(id: string): Db {
    Db(map[], map[id := TRUCK.(truckGroupId := Some(id))], map[], [], map[DocRef(VEHICLE_GROUP, id) := Doc(Some("c"), "", map[], false)])
  }

  /** Retired by its id spelled otherwise, a group keeps its trucks. */
  lemma RespelledIdLeavesTheGroup(low: string, high: string)
    requires Respelled(low, high)
    ensures var c := Caller("c", false);
      && GroupInv(Grouped(low))
      && !GroupInv(Delete(Grouped(low), VEHICLE_GROUP, high, c).0) && GroupInv(Delete(Grouped(low), VEHICLE_GROUP, low, c).0)
  {
    var db := Grouped(low);
    assert low in db.vehicles && GroupSound(db, db.vehicles[low]);
    DeleteGroupKeepsExactly(db, high, Caller("c", false));
    DeleteGroupKeepsExactly(db, low, Caller("c", false));
  }

  /** A truck put into its group by the id spelled otherwise is in no group the register can find. */
  lemma RespelledIdJoinsNoGroup(low: string, high: string)
    requires Respelled(low, high)
    ensures var (db', r) := UpdateVehicle(Grouped(low), "c", low, VehicleInput(None, None, Some(high), None, None));
            r.Ok? && !GroupInv(db')
  {
    var db, input := Grouped(low), VehicleInput(None, None, Some(high), None, None);
    assert GroupSound(db, db.vehicles[low]);
    var applied := VehicleApplied(input, db.vehicles[low]);
    assert applied.truckGroupId == Some(high) && GroupAccepted(db, "c", Some(high)) by { assert |high| == 24; }
    FilterIdentity(IsAlnum, "B");
    SavingKeepsGroupsExactly(db, "c", low, false, applied, None);
  }

  // ----- Validating references -----

  /** One shared brand. */
  function Branded(id: string): Db {
    Db(map[], map[], map[], [], map[DocRef("brand", id) := Doc(None, "", map[], false)])
  }

  lemma BrandIsSeen(low: string, kind: string, c: Caller, id: string)
    ensures id in View(Branded(low), kind, c) <==> kind == "brand" && id == low
  {
    var ref := DocRef(kind, id);
    assert ref in Branded(low).docs <==> ref == DocRef("brand", low);
    assert id in View(Branded(low), kind, c) <==> ref in Branded(low).docs;
  }

  lemma OnlyTheBrandIsSeen(low: string, c: Caller)
    ensures low in View(Branded(low), "brand", c) && View(Branded(low), "cargoType", c) == map[]
  {
    BrandIsSeen(low, "brand", c, low);
    forall id ensures id !in View(Branded(low), "cargoType", c) { BrandIsSeen(low, "cargoType", c, id); }
  }

  /** A cargo type that does not exist passes beside a brand of its id. */
  lemma OtherListPasses(low: string, high: string)
    requires Respelled(low, high)
    ensures Validate(Branded(low), "c", [Ref("brand", [low]), Ref("cargoType", [low])]) == Ok([])
    ensures Get(Branded(low), "cargoType", low, Caller("c", false)) == Refused(NotFound)
  {
    var db, c, two := Branded(low), Caller("c", false), [Ref("brand", [low]), Ref("cargoType", [low])];
    OnlyTheBrandIsSeen(low, c);
    OneIdResolved(View(db, "brand", c), "brand", low, low);
    ResolvedOnce(db, "c", Ref("brand", [low]));
    assert two[..1] == [Ref("brand", [low])];
    assert Resolve(db, "c", two).Ok? && low in Resolve(db, "c", two).value;
    AllFoundIsValid(Resolve(db, "c", two).value, low);
  }

  lemma AllFoundIsValid(out: map<string, Entry>, id: string)
    requires id in out
    ensures Invalid(out, [Ref("brand", [id]), Ref("cargoType", [id])]) == []
  {
    var two := [Ref("brand", [id]), Ref("cargoType", [id])];
    assert two[..1] == [two[0]] && [two[0]][..0] == [] && [id][..0] == [];
    assert Unresolved(out, [id]) == [];
    assert Invalid(out, two[..1]) == [];
  }

  lemma RespelledIsRead(low: string, high: string)
    requires Respelled(low, high)
    ensures Get(Branded(low), "brand", high, Caller("c", false)).Ok?
  {
    OnlyTheBrandIsSeen(low, Caller("c", false));
  }

  lemma InvalidOfOne(out: map<string, Entry>, kind: string, id: string)
    requires id != "" && id !in out
    ensures Invalid(out, [Ref(kind, [id])]) == [id]
  {
    OneIdMissing(out, id);
    assert [Ref(kind, [id])][..0] == [];
  }

  /** A brand spelled otherwise than printed is there to be read, and reported missing. */
  lemma RespelledIsMissing(low: string, high: string)
    requires Respelled(low, high)
    ensures Validate(Branded(low), "c", [Ref("brand", [high])]) == Ok([high]) && Get(Branded(low), "brand", high, Caller("c", false)).Ok?
  {
    var view := View(Branded(low), "brand", Caller("c", false));
    RespelledIsRead(low, high);
    OneIdResolved(view, "brand", high, low);
    ResolvedOnce(Branded(low), "c", Ref("brand", [high]));
    assert high != "" by { assert |high| == 24; }
    InvalidOfOne(ResolveIds(view, "brand", [high]), "brand", high);
  }

  lemma OneIdResolved(view: map<string, Doc>, kind: string, raw: string, id: string)
    requires ObjectId(raw) == Some(id)
    ensures ResolveIds(view, kind, [raw]) == if id in view then map[id := EntryOf(kind, id, view[id])] else map[]
  {
    assert [raw][..0] == [];
  }

  lemma ResolvedOnce(db: Db, company: string, r: Ref)
    requires Served(r.kind)
    ensures Resolve(db, company, [r]) == Ok(ResolveIds(View(db, r.kind, Caller(company, false)), r.kind, r.ids))
  {
    assert [r][..0] == [];
    assert map[] + ResolveIds(View(db, r.kind, Caller(company, false)), r.kind, r.ids) ==
           ResolveIds(View(db, r.kind, Caller(company, false)), r.kind, r.ids);
  }

  lemma OneIdMissing(out: map<string, Entry>, id: string)
    requires id != ""
    ensures Unresolved(out, [id]) == if id in out then [] else [id]
  {
    assert [id][..0] == [];
  }

  predicate Digits15(imei: string) {
    |imei| == 15 && forall c :: c in imei ==> IsDigit(c)
  }

  function Stretch(tracker: string, vehicle: string, imei: string, from: Time, to: Option<Time>): Assignment {
    Assignment("c", tracker, vehicle, Gps, imei, imei, from, to)
  }

  /** A device that was on the truck from 10 to 20. */
  function Used(id: string, imei: string): Db {
    Db(map[id := Tracker(Some("c"), Gps, imei, imei, None, "active", false)], map[id := TRUCK], map[],
       [Stretch(id, id, imei, 10, Some(20))], map[])
  }

  lemma UsedIsSound(id: string, imei: string)
    requires Digits15(imei)
    ensures RegisterInv(Used(id, imei)) && Unambiguous(Used(id, imei).assignments)
  {
    FilterIdentity(IsDigit, imei);
    assert RowSound(Used(id, imei), Used(id, imei).assignments[0]);
  }

  /** Fitted again as of 15, it has two stretches that both cover 15. */
  lemma BackdatingOverlaps(id: string, imei: string)
    requires Canonical(id) && Digits15(imei)
    ensures var (db', r) := Fit(Used(id, imei), "c", id, FitInput(id, Some(15)), 30, ALL_WELL);
            Unambiguous(Used(id, imei).assignments) && r.Ok? && !Unambiguous(db'.assignments)
  {
    var db, input := Used(id, imei), FitInput(id, Some(15));
    UsedIsSound(id, imei);
    var p := FitPlan(db, "c", id, input, 30).value;
    PlanIsSound(db, "c", id, input, 30);
    assert SameLine(db.assignments[0], p.row);
    FitKeepsHistoryExactly(db, p);
    WritesSpelledOut(db, p, 5);
  }

  // ----- A device that comes back -----

  function GpsOf(imei: string): Tracker {
    Tracker(Some("c"), Gps, imei, imei, None, "active", false)
  }

  /** Two devices and a truck, nothing fitted yet. */
  function Yard(v: string, a: string, b: string, imeiA: string, imeiB: string): Db {
    Db(map[a := GpsOf(imeiA), b := GpsOf(imeiB)], map[v := TRUCK], map[], [], map[])
  }

  /** The devices are those of the yard and the truck is there, whatever was fitted meanwhile. */
  predicate OnYard(db: Db, yard: Db, v: string) {
    db.trackers == yard.trackers && v in db.vehicles && db.vehicles[v].companyId == "c" && !db.vehicles[v].deleted
  }

  predicate AllClosed(rows: seq<Assignment>) {
    forall a :: a in rows ==> !Open(a)
  }

  lemma PlanOnYard(db: Db, yard: Db, v: string, x: string, imei: string, at: Time)
    requires OnYard(db, yard, v) && Canonical(v) && Canonical(x) && x in db.trackers && db.trackers[x] == GpsOf(imei) && Digits15(imei)
    requires at <= 30
    ensures FitPlan(db, "c", x, FitInput(v, Some(at)), 30) == Ok(Plan(x, v, LiveOfKind(db, Gps), Stretch(x, v, imei, at, None)))
  {
    FilterIdentity(IsDigit, imei);
  }

  lemma FitOnYard(db: Db, yard: Db, v: string, x: string, imei: string, at: Time)
    requires OnYard(db, yard, v) && Canonical(v) && Canonical(x) && x in db.trackers && db.trackers[x] == GpsOf(imei) && Digits15(imei)
    requires AllClosed(db.assignments) && at <= 30
    ensures var (db', r) := Fit(db, "c", x, FitInput(v, Some(at)), 30, ALL_WELL);
            r.Ok? && OnYard(db', yard, v) && db'.assignments == db.assignments + [Stretch(x, v, imei, at, None)]
  {
    PlanOnYard(db, yard, v, x, imei, at);
    var p := Plan(x, v, LiveOfKind(db, Gps), Stretch(x, v, imei, at, None));
    WritesSpelledOut(db, p, 5);
    assert forall i :: 0 <= i < |db.assignments| ==> db.assignments[i] in db.assignments;
    assert Vacated(db.assignments, p) == db.assignments;
  }

  lemma UnfitOnYard(db: Db, yard: Db, v: string, x: string, imei: string, rows: seq<Assignment>, from: Time, at: Time)
    requires OnYard(db, yard, v) && Canonical(x) && x in db.trackers && db.trackers[x] == GpsOf(imei)
    requires AllClosed(rows) && db.assignments == rows + [Stretch(x, v, imei, from, None)]
    ensures var (db', r) := Unfit(db, "c", x, at, ALL_WELL);
            r.Ok? && OnYard(db', yard, v) && db'.assignments == rows + [Stretch(x, v, imei, from, Some(at))]
  {
    assert db.assignments[|rows|] in db.assignments;
    assert forall i :: 0 <= i < |rows| ==> rows[i] in rows && db.assignments[i] == rows[i];
    assert CloseDevice(db.assignments, x, at) == rows + [Stretch(x, v, imei, from, Some(at))];
  }

  function AfterOps(db: Db, ops: seq<Op>): Db {
    if ops == [] then db else Step(AfterOps(db, ops[..|ops| - 1]), ops[|ops| - 1]).0
  }

  function FitAsOf(x: string, v: string, at: Time): Op {
    OpFit("c", x, FitInput(v, Some(at)), 30, ALL_WELL)
  }

  lemma AfterOneMore(db: Db, ops: seq<Op>, op: Op)
    ensures AfterOps(db, ops + [op]) == Step(AfterOps(db, ops), op).0
  {
    assert (ops + [op])[..|ops|] == ops;
  }

  lemma FitStep(db: Db, yard: Db, v: string, x: string, imei: string, from: Time)
    requires OnYard(db, yard, v) && AllClosed(db.assignments)
    requires Canonical(v) && Canonical(x) && x in yard.trackers && yard.trackers[x] == GpsOf(imei) && Digits15(imei) && from <= 30
    ensures var db' := Step(db, FitAsOf(x, v, from)).0;
            OnYard(db', yard, v) && db'.assignments == db.assignments + [Stretch(x, v, imei, from, None)]
  {
    FitOnYard(db, yard, v, x, imei, from);
  }

  lemma UnfitStep(db: Db, yard: Db, v: string, x: string, imei: string, rows: seq<Assignment>, from: Time, to: Time)
    requires OnYard(db, yard, v) && AllClosed(rows) && db.assignments == rows + [Stretch(x, v, imei, from, None)]
    requires Canonical(x) && x in yard.trackers && yard.trackers[x] == GpsOf(imei)
    ensures var db' := Step(db, OpUnfit("c", x, to, ALL_WELL)).0;
            OnYard(db', yard, v) && db'.assignments == rows + [Stretch(x, v, imei, from, Some(to))]
  {
    UnfitOnYard(db, yard, v, x, imei, rows, from, to);
  }

  lemma FitNext(yard: Db, ops: seq<Op>, v: string, x: string, imei: string, from: Time)
    requires Canonical(v) && Canonical(x) && x in yard.trackers && yard.trackers[x] == GpsOf(imei) && Digits15(imei) && from <= 30
    requires OnYard(AfterOps(yard, ops), yard, v) && AllClosed(AfterOps(yard, ops).assignments)
    ensures var (db, db') := (AfterOps(yard, ops), AfterOps(yard, ops + [FitAsOf(x, v, from)]));
            OnYard(db', yard, v) && db'.assignments == db.assignments + [Stretch(x, v, imei, from, None)]
  {
    AfterOneMore(yard, ops, FitAsOf(x, v, from));
    FitStep(AfterOps(yard, ops), yard, v, x, imei, from);
  }

  lemma UnfitNext(yard: Db, ops: seq<Op>, v: string, x: string, imei: string, rows: seq<Assignment>, from: Time, to: Time)
    requires Canonical(x) && x in yard.trackers && yard.trackers[x] == GpsOf(imei) && AllClosed(rows)
    requires OnYard(AfterOps(yard, ops), yard, v) && AfterOps(yard, ops).assignments == rows + [Stretch(x, v, imei, from, None)]
    ensures var db' := AfterOps(yard, ops + [OpUnfit("c", x, to, ALL_WELL)]);
            OnYard(db', yard, v) && db'.assignments == rows + [Stretch(x, v, imei, from, Some(to))]
  {
    AfterOneMore(yard, ops, OpUnfit("c", x, to, ALL_WELL));
    UnfitStep(AfterOps(yard, ops), yard, v, x, imei, rows, from, to);
  }

  /** One stretch more: fitted, and taken off again. */
  lemma StretchAdded(yard: Db, ops: seq<Op>, v: string, x: string, imei: string, from: Time, to: Time) returns (ops': seq<Op>)
    requires Canonical(v) && Canonical(x) && x in yard.trackers && yard.trackers[x] == GpsOf(imei) && Digits15(imei) && from <= 30
    requires OnYard(AfterOps(yard, ops), yard, v) && AllClosed(AfterOps(yard, ops).assignments)
    ensures ops' == ops + [FitAsOf(x, v, from), OpUnfit("c", x, to, ALL_WELL)]
    ensures OnYard(AfterOps(yard, ops'), yard, v)
    ensures AfterOps(yard, ops').assignments == AfterOps(yard, ops).assignments + [Stretch(x, v, imei, from, Some(to))]
  {
    var fitted := ops + [FitAsOf(x, v, from)];
    FitNext(yard, ops, v, x, imei, from);
    UnfitNext(yard, fitted, v, x, imei, AfterOps(yard, ops).assignments, from, to);
    ops' := fitted + [OpUnfit("c", x, to, ALL_WELL)];
  }

  /** Device a is on the truck from 0 to 1, b from 3 to 20; then a is recorded as fitted again as of 5. */
  function ComingBack(v: string, a: string, b: string): seq<Op> {
    [ FitAsOf(a, v, 0), OpUnfit("c", a, 1, ALL_WELL), FitAsOf(b, v, 3), OpUnfit("c", b, 20, ALL_WELL), FitAsOf(a, v, 5) ]
  }

  function Clashing(v: string, a: string, b: string, imeiA: string, imeiB: string): seq<Assignment> {
    [Stretch(a, v, imeiA, 0, Some(1)), Stretch(b, v, imeiB, 3, Some(20)), Stretch(a, v, imeiA, 5, None)]
  }

  predicate TwoDevices(v: string, a: string, b: string, imeiA: string, imeiB: string) {
    Canonical(v) && Canonical(a) && Canonical(b) && a != b && Digits15(imeiA) && Digits15(imeiB) && imeiA != imeiB
  }

  lemma TwoStretches(yard: Db, v: string, a: string, b: string, imeiA: string, imeiB: string) returns (ops: seq<Op>)
    requires TwoDevices(v, a, b, imeiA, imeiB) && yard == Yard(v, a, b, imeiA, imeiB)
    ensures ops == ComingBack(v, a, b)[..4] && OnYard(AfterOps(yard, ops), yard, v)
    ensures AfterOps(yard, ops).assignments == Clashing(v, a, b, imeiA, imeiB)[..2]
  {
    assert AfterOps(yard, []) == yard && OnYard(yard, yard, v);
    var first := StretchAdded(yard, [], v, a, imeiA, 0, 1);
    ops := StretchAdded(yard, first, v, b, imeiB, 3, 20);
  }

  lemma ComingBackReaches(v: string, a: string, b: string, imeiA: string, imeiB: string)
    requires TwoDevices(v, a, b, imeiA, imeiB)
    ensures AfterOps(Yard(v, a, b, imeiA, imeiB), ComingBack(v, a, b)).assignments == Clashing(v, a, b, imeiA, imeiB)
  {
    var yard := Yard(v, a, b, imeiA, imeiB);
    var ops := TwoStretches(yard, v, a, b, imeiA, imeiB);
    FitNext(yard, ops, v, a, imeiA, 5);
    assert ops + [FitAsOf(a, v, 5)] == ComingBack(v, a, b);
  }

  lemma ClashingIsInOrder(v: string, a: string, b: string, imeiA: string, imeiB: string)
    ensures OneVehiclePerDevice(Clashing(v, a, b, imeiA, imeiB)) && OneDevicePerSlot(Clashing(v, a, b, imeiA, imeiB))
  {
  }

  lemma LaterStretchMayLose(v: string, a: string, b: string, imeiA: string, imeiB: string)
    requires imeiA != "" && imeiB != "" && imeiA != imeiB
    ensures var rows := Clashing(v, a, b, imeiA, imeiB); !LaterWins(rows, AdmittedRows(rows, "c", [v], 10), v)
  {
    var rows := Clashing(v, a, b, imeiA, imeiB);
    var admitted := AdmittedRows(rows, "c", [v], 10);
    AdmittedExactly(rows, "c", [v], 10);
    assert rows[0] in rows && rows[1] in rows && rows[2] in rows;
    assert forall x :: x in admitted <==> x == rows[1] || x == rows[2];
    assert Top(admitted, v, rows[2]);
    assert Loser(admitted, v, rows[1]) && HasRow(rows, v, imeiA, 0) && Latest(admitted, v, imeiA);
    LaterWinsExactly(rows, admitted, v);
  }

  /**
   * After these operations, asked about 10, the query may answer with the earlier fitting: it
   * can judge the later one by its first stretch. The register itself is in order.
   */
  lemma ReturnedDeviceMayLose(v: string, a: string, b: string, imeiA: string, imeiB: string)
    requires TwoDevices(v, a, b, imeiA, imeiB)
    ensures var rows := AfterOps(Yard(v, a, b, imeiA, imeiB), ComingBack(v, a, b)).assignments;
            OneVehiclePerDevice(rows) && OneDevicePerSlot(rows) && !LaterWins(rows, AdmittedRows(rows, "c", [v], 10), v)
  {
    ComingBackReaches(v, a, b, imeiA, imeiB);
    ClashingIsInOrder(v, a, b, imeiA, imeiB);
    LaterStretchMayLose(v, a, b, imeiA, imeiB);
  }
}
