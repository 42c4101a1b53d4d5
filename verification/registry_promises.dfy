/** What an accepted operation of the register stores, told by what was typed and what was there. */
module RegistryPromises {
  import opened Wrappers
  import opened Text
  import opened Normalise
  import opened Records
  import opened Registry
  import opened RegistryFrames
  import opened Fitting
  import opened FleetRules

  /** The typed value without its outer space; blank clears, and nothing typed keeps. */
  predicate Takes(after: Option<string>, before: Option<string>, typed: Option<string>) {
    match typed
    case None => after == before
    case Some(s) => after == if Trim(s) == "" then None else Some(Trim(s))
  }

  /** A status is typed in any case, and active where nothing is. */
  predicate TakesStatus(after: string, before: string, typed: Option<string>) {
    match typed
    case None => after == if before == "" then "active" else before
    case Some(s) => after == if Trim(s) == "" then "active" else Lower(Trim(s))
  }

  // ----- Vehicles -----

  /** The vehicle is what was typed over what it was, with its twins filled; its company, device and life are untouched. */
  ghost predicate VehicleSays(after: Vehicle, before: Vehicle, input: VehicleInput) {
    && after.companyId == before.companyId && after.trackerId == before.trackerId && after.deleted == before.deleted
    && after.licensePlate == (if input.licensePlate.Some? then Trim(input.licensePlate.value) else before.licensePlate)
    && Takes(after.chassisNumber, before.chassisNumber, input.chassisNumber)
    && Takes(after.truckGroupId, before.truckGroupId, input.truckGroupId)
    && TakesStatus(after.status, before.status, input.status)
    && TwinsFilled(after)
  }

  /** Every other vehicle is as it was, or has lost its driver to this one. */
  ghost predicate OthersKept(vs: map<string, Vehicle>, vs': map<string, Vehicle>, id: string) {
    vs'.Keys == vs.Keys + {id} && forall u :: u in vs && u != id ==>
      vs'[u] == vs[u] || (vs'[u] == Released(vs[u]) && vs[u].currentDriverId == vs'[id].currentDriverId)
  }

  lemma AppliedSays(input: VehicleInput, base: Vehicle, w: Vehicle, d: Option<string>, login: Option<string>)
    requires w == VehicleWritten(VehicleApplied(input, base).(currentDriverId := d, currentDriverUserId := login)) && VehicleValid(w)
    ensures VehicleSays(w, base, input)
  {
  }

  lemma SavedSays(db: Db, company: string, id: string, creating: bool, input: VehicleInput, base: Vehicle)
    requires base.companyId == company && (creating <==> id !in db.vehicles)
    requires VehicleSaved(db, company, id, creating, VehicleApplied(input, base), input.currentDriverId).1.Ok?
    ensures var db' := VehicleSaved(db, company, id, creating, VehicleApplied(input, base), input.currentDriverId).0;
      id in db'.vehicles && VehicleSays(db'.vehicles[id], base, input) && OthersKept(db.vehicles, db'.vehicles, id)
  {
    var v := VehicleApplied(input, base);
    var self := if creating then None else Some(id);
    SaveEnds(db, company, id, creating, v, input.currentDriverId);
    DriverEnds(db, company, self, v, input.currentDriverId);
    var paired := SetDriver(db, company, self, v, input.currentDriverId).value;
    assert paired.vehicle == v.(currentDriverId := paired.vehicle.currentDriverId, currentDriverUserId := paired.vehicle.currentDriverUserId);
    AppliedSays(input, base, VehicleWritten(paired.vehicle), paired.vehicle.currentDriverId, paired.vehicle.currentDriverUserId);
  }

  lemma CreateVehicleSays(db: Db, company: string, input: VehicleInput, newId: string)
    requires CreateVehicle(db, company, input, newId).1.Ok?
    ensures var (db', r) := CreateVehicle(db, company, input, newId);
      && r == Ok(newId) && newId !in db.vehicles && newId in db'.vehicles && input.licensePlate.Some?
      && VehicleSays(db'.vehicles[newId], NewVehicle(company), input) && OthersKept(db.vehicles, db'.vehicles, newId)
  {
    SaveEnds(db, company, newId, true, VehicleApplied(input, NewVehicle(company)), input.currentDriverId);
    SavedSays(db, company, newId, true, input, NewVehicle(company));
    assert Plate("") == "";
  }

  lemma UpdateVehicleSays(db: Db, company: string, raw: string, input: VehicleInput)
    requires UpdateVehicle(db, company, raw, input).1.Ok?
    ensures var (db', r) := UpdateVehicle(db, company, raw, input);
      && Some(r.value) == Oid(raw) && r.value in db.vehicles && r.value in db'.vehicles
      && db.vehicles[r.value].companyId == company && !db.vehicles[r.value].deleted
      && VehicleSays(db'.vehicles[r.value], db.vehicles[r.value], input) && OthersKept(db.vehicles, db'.vehicles, r.value)
  {
    var id := FindVehicle(db, company, raw).value;
    SaveEnds(db, company, id, false, VehicleApplied(input, db.vehicles[id]), input.currentDriverId);
    SavedSays(db, company, id, false, input, db.vehicles[id]);
  }

  // ----- Drivers -----

  /** The driver is who was typed over who it was: named, active or not, and alone in having the login. */
  ghost predicate DriverSays(after: Driver, before: Driver, input: DriverInput) {
    && after.companyId == before.companyId && after.deleted == before.deleted
    && after.fullName == Trim(if input.fullName.Some? then input.fullName.value else before.fullName) && after.fullName != ""
    && after.status in {"active", "inactive"} && TakesStatus(after.status, before.status, input.status)
    && Takes(after.userId, before.userId, input.userId)
  }

  ghost predicate LoginIsOnes(ds: map<string, Driver>, id: string)
    requires id in ds
  {
    ds[id].userId.Some? && !ds[id].deleted ==> forall u :: u in ds && u != id && !ds[u].deleted ==> ds[u].userId != ds[id].userId
  }

  lemma CreateDriverSays(db: Db, company: string, input: DriverInput, newId: string, clash: bool)
    requires CreateDriver(db, company, input, newId, clash).1.Ok?
    ensures var (db', r) := CreateDriver(db, company, input, newId, clash);
      && r == Ok(newId) && newId !in db.drivers && newId in db'.drivers && input.fullName.Some?
      && db' == db.(drivers := db.drivers[newId := db'.drivers[newId]])
      && DriverSays(db'.drivers[newId], Driver(company, "", "", None, false), input) && LoginIsOnes(db'.drivers, newId)
  {
    assert Trim("") == "";
  }

  lemma UpdateDriverSays(db: Db, company: string, raw: string, input: DriverInput, clash: bool)
    requires UpdateDriver(db, company, raw, input, clash).1.Ok?
    ensures var (db', r) := UpdateDriver(db, company, raw, input, clash);
      && Some(r.value) == Oid(raw) && r.value in db.drivers && r.value in db'.drivers
      && db.drivers[r.value].companyId == company && !db.drivers[r.value].deleted
      && db' == db.(drivers := db.drivers[r.value := db'.drivers[r.value]])
      && DriverSays(db'.drivers[r.value], db.drivers[r.value], input) && LoginIsOnes(db'.drivers, r.value)
  {
  }

  // ----- Devices -----

  /** The digits of a card number. */
  function CardOf(card: Option<string>): Option<string> {
    if card.None? || Imei(card.value) == "" then None else Some(Imei(card.value))
  }

  /** The device is the one it was; only staff move it to another company, and only one live device has its card. */
  ghost predicate DeviceSays(after: Tracker, before: Tracker, input: TrackerInput, staff: bool) {
    && after.kind == before.kind && after.deviceId == before.deviceId && after.imei == before.imei && after.deleted == before.deleted
    && (if staff then Takes(after.companyId, before.companyId, input.companyId) else after.companyId == before.companyId)
    && after.iccid == CardOf(if input.iccid.Some? then input.iccid else before.iccid) && TakesStatus(after.status, before.status, input.status)
  }

  lemma IccidSays(iccid: Option<string>, before: Option<string>)
    ensures Optional(Imei, Patched(before, iccid)) == CardOf(if iccid.Some? then iccid else before)
  {
    var given := if iccid.Some? then iccid else before;
    if given.Some? {
      TwinsIgnoreTrim(given.value);
      TrimIdempotent(given.value);
      assert Imei("") == "";
    }
  }

  lemma UpdateTrackerSays(db: Db, company: string, raw: string, input: TrackerInput, staff: bool)
    requires UpdateTracker(db, company, raw, input, staff).1.Ok?
    ensures var (db', r) := UpdateTracker(db, company, raw, input, staff);
      && Some(r.value) == Oid(raw) && r.value in db.trackers && r.value in db'.trackers && !db.trackers[r.value].deleted
      && (staff || company == "" || db.trackers[r.value].companyId == Some(company))
      && db' == db.(trackers := db.trackers[r.value := db'.trackers[r.value]])
      && (IdentityStored(db.trackers[r.value]) ==> DeviceSays(db'.trackers[r.value], db.trackers[r.value], input, staff))
      && !TrackerClash(db.trackers, r.value, db'.trackers[r.value])
  {
    var id := FindTracker(db, if staff then "" else company, raw).value;
    var applied := TrackerApplied(input, db.trackers[id], false).value;
    var owner := if staff then Patched(applied.companyId, input.companyId) else applied.companyId;
    IccidSays(input.iccid, db.trackers[id].iccid);
    if IdentityStored(db.trackers[id]) { UpdateKeepsIdentity(db.trackers[id], input, owner); }
  }

  // ----- What the device calls promise -----

  /** An accepted creation adds the device typed, and nothing else. */
  ghost predicate CreatesDevice(db: Db, company: string, input: TrackerInput, newId: string, r: Reply<string>, after: Db) {
    r.Ok? ==>
      && r.value == newId && newId !in db.trackers && newId in after.trackers
      && after.trackers == db.trackers[newId := after.trackers[newId]]
      && DeviceRegistered(after.trackers[newId], db.trackers, company, input)
      && after.trackers[newId].iccid == CardOf(input.iccid) && TakesStatus(after.trackers[newId].status, "", input.status)
  }

  /** An accepted update rewrites the device asked for, and nothing else. */
  ghost predicate RewritesDevice(db: Db, raw: string, input: TrackerInput, staff: bool, r: Reply<string>, after: Db) {
    r.Ok? ==>
      && Some(r.value) == Oid(raw) && r.value in db.trackers && r.value in after.trackers
      && after.trackers == db.trackers[r.value := after.trackers[r.value]]
      && (IdentityStored(db.trackers[r.value]) ==> DeviceSays(after.trackers[r.value], db.trackers[r.value], input, staff))
  }

  lemma CreationPromised(db: Db, company: string, input: TrackerInput, newId: string)
    ensures var (db', r) := CreateTracker(db, company, input, newId); CreatesDevice(db, company, input, newId, r, db')
  {
    if CreateTracker(db, company, input, newId).1.Ok? {
      CreateTrackerRegisters(db, company, input, newId);
      IccidSays(input.iccid, None);
    }
  }

  lemma UpdatePromised(db: Db, company: string, raw: string, input: TrackerInput, staff: bool)
    ensures var (db', r) := UpdateTracker(db, company, raw, input, staff); RewritesDevice(db, raw, input, staff, r, db')
  {
    if UpdateTracker(db, company, raw, input, staff).1.Ok? { UpdateTrackerSays(db, company, raw, input, staff); }
  }
}
