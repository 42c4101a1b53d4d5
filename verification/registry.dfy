/**
 * The fleet register (registry.go): what every operation does to the database. Each Mongo
 * write is one function; an operation that fails part-way leaves the writes made so far.
 */
module Registry {
  import opened Wrappers
  import opened Text
  import opened Normalise
  import opened Records

  // ----- Finding -----

  function FindTracker(db: Db, company: string, raw: string): Option<string> {
    var id := Oid(raw);
    if id.Some? && id.value in db.trackers
       && !db.trackers[id.value].deleted
       && (company == "" || db.trackers[id.value].companyId == Some(company))
    then id else None
  }

  function FindVehicle(db: Db, company: string, raw: string): Option<string> {
    var id := Oid(raw);
    if id.Some? && id.value in db.vehicles
       && !db.vehicles[id.value].deleted && db.vehicles[id.value].companyId == company
    then id else None
  }

  function FindDriver(db: Db, company: string, raw: string): Option<string> {
    var id := Oid(raw);
    if id.Some? && id.value in db.drivers
       && !db.drivers[id.value].deleted && db.drivers[id.value].companyId == company
    then id else None
  }

  // ----- Inputs: present means set, absent means keep -----

  datatype VehicleInput = VehicleInput(
    licensePlate: Option<string>, chassisNumber: Option<string>, truckGroupId: Option<string>,
    status: Option<string>, currentDriverId: Option<string>)

  datatype TrackerInput = TrackerInput(
    kind: Option<string>, deviceId: Option<string>, imei: Option<string>, iccid: Option<string>,
    companyId: Option<string>, status: Option<string>)

  datatype DriverInput = DriverInput(fullName: Option<string>, status: Option<string>, userId: Option<string>)

  datatype FitInput = FitInput(vehicleId: string, fittedAt: Option<Time>)

  /** `str`: a blank value clears the field. */
  function Patched(dst: Option<string>, src: Option<string>): Option<string> {
    if src.None? then dst else if Trim(src.value) == "" then None else Some(Trim(src.value))
  }

  function Folded(dst: string, src: Option<string>): string {
    if src.None? then dst else Lower(Trim(src.value))
  }

  function VehicleApplied(input: VehicleInput, v: Vehicle): Vehicle {
    v.(licensePlate := if input.licensePlate.Some? then Trim(input.licensePlate.value) else v.licensePlate,
       chassisNumber := Patched(v.chassisNumber, input.chassisNumber),
       truckGroupId := Patched(v.truckGroupId, input.truckGroupId),
       status := Folded(v.status, input.status))
  }

  function DriverApplied(input: DriverInput, d: Driver): Driver {
    d.(fullName := if input.fullName.Some? then input.fullName.value else d.fullName,
       status := Folded(d.status, input.status),
       userId := Patched(d.userId, input.userId))
  }

  function ParseKind(s: string): DeviceKind {
    if Lower(Trim(s)) == "gps" then Gps else if Lower(Trim(s)) == "dashcam" then Dashcam else NoKind
  }

  function NormaliseDevice(kind: DeviceKind, v: string): string {
    if kind == Dashcam then Trim(v) else Imei(v)
  }

  function TrackerApplied(input: TrackerInput, t: Tracker, creating: bool): Reply<Tracker> {
    var kind := if input.kind.Some? then ParseKind(input.kind.value) else t.kind;
    var device := if input.deviceId.Some? then input.deviceId else input.imei;
    if input.kind.Some? && kind == NoKind then Refused(Validation)
    else if input.kind.Some? && !creating && t.kind != NoKind && t.kind != kind then Refused(Conflict)
    else if device.Some? && !creating && t.deviceId != "" && NormaliseDevice(kind, Trim(device.value)) != t.deviceId
    then Refused(Conflict)
    else Ok(t.(kind := kind,
               deviceId := if device.Some? then Trim(device.value) else t.deviceId,
               iccid := Patched(t.iccid, input.iccid),
               status := Folded(t.status, input.status)))
  }

  // ----- Vehicles and drivers -----

  predicate GroupLive(db: Db, company: string, id: string) {
    var ref := DocRef(VEHICLE_GROUP, id);
    ref in db.docs && db.docs[ref].companyId == Some(company) && !db.docs[ref].deleted
  }

  predicate GroupAccepted(db: Db, company: string, group: Option<string>) {
    group.None? || group.value == ""
    || (ObjectId(group.value).Some? && GroupLive(db, company, ObjectId(group.value).value))
  }

  function Released(v: Vehicle): Vehicle {
    v.(currentDriverId := None, currentDriverUserId := None)
  }

  /** Clears a driver from every vehicle of the company except one. */
  function Unpaired(vehicles: map<string, Vehicle>, company: string, driver: string, except: Option<string>): map<string, Vehicle> {
    map u | u in vehicles ::
      if vehicles[u].companyId == company && vehicles[u].currentDriverId == Some(driver) && except != Some(u)
      then Released(vehicles[u]) else vehicles[u]
  }

  datatype Paired = Paired(db: Db, vehicle: Vehicle)

  /** The one place a vehicle's driver changes; the other vehicles are written before this one is. */
  function SetDriver(db: Db, company: string, self: Option<string>, v: Vehicle, driver: Option<string>): Reply<Paired> {
    if driver.None? then Ok(Paired(db, v))
    else if Trim(driver.value) == "" then Ok(Paired(db, Released(v)))
    else
      var found := FindDriver(db, company, driver.value);
      if found.None? || db.drivers[found.value].status != "active" then Refused(Validation)
      else if v.currentDriverId == found then Ok(Paired(db, v))
      else Ok(Paired(db.(vehicles := Unpaired(db.vehicles, company, found.value, self)),
                     v.(currentDriverId := found, currentDriverUserId := db.drivers[found.value].userId)))
  }

  /** The store's write: fill the twins, validate, then let the unique indexes decide. */
  function VehicleStored(db: Db, id: string, taken: bool, v: Vehicle): (Db, Reply<string>) {
    var w := VehicleWritten(v);
    if !VehicleValid(w) then (db, Refused(Validation))
    else if taken || VehicleClash(db.vehicles, id, w) then (db, Refused(Conflict))
    else (db.(vehicles := db.vehicles[id := w]), Ok(id))
  }

  function VehicleSaved(db: Db, company: string, id: string, creating: bool, v: Vehicle, driver: Option<string>): (Db, Reply<string>) {
    if !GroupAccepted(db, company, v.truckGroupId) then (db, Refused(Validation))
    else
      var paired := SetDriver(db, company, if creating then None else Some(id), v, driver);
      if paired.Refused? then (db, Refused(paired.error))
      else VehicleStored(paired.value.db, id, creating && id in db.vehicles, paired.value.vehicle)
  }

  function NewVehicle(company: string): Vehicle {
    Vehicle(company, "", "", None, None, None, None, None, None, "", false)
  }

  function CreateVehicle(db: Db, company: string, input: VehicleInput, newId: string): (Db, Reply<string>) {
    VehicleSaved(db, company, newId, true, VehicleApplied(input, NewVehicle(company)), input.currentDriverId)
  }

  function UpdateVehicle(db: Db, company: string, raw: string, input: VehicleInput): (Db, Reply<string>) {
    var found := FindVehicle(db, company, raw);
    if found.None? then (db, Refused(NotFound))
    else VehicleSaved(db, company, found.value, false, VehicleApplied(input, db.vehicles[found.value]), input.currentDriverId)
  }

  predicate Open(a: Assignment) {
    a.unfittedAt.None?
  }

  /** Refused while a device is fitted; the count compares the id as the caller spelled it. */
  function DeleteVehicle(db: Db, company: string, raw: string): (Db, Reply<string>) {
    var found := FindVehicle(db, company, raw);
    if found.None? then (db, Refused(NotFound))
    else if (exists a :: a in db.assignments && a.vehicleId == raw && Open(a)) || db.vehicles[found.value].trackerId.Some?
    then (db, Refused(Conflict))
    else (db.(vehicles := db.vehicles[found.value := db.vehicles[found.value].(deleted := true)]), Ok(found.value))
  }

  function DriverStored(db: Db, id: string, d: Driver, clash: bool): (Db, Reply<string>) {
    var w := DriverWritten(d);
    if !DriverValid(w) then (db, Refused(Validation))
    else if clash || DriverClash(db.drivers, id, w) then (db, Refused(Conflict))
    else (db.(drivers := db.drivers[id := w]), Ok(id))
  }

  /** `clash` is the verdict of the indexes on phone, employee number and licence, which are not modelled. */
  function CreateDriver(db: Db, company: string, input: DriverInput, newId: string, clash: bool): (Db, Reply<string>) {
    DriverStored(db, newId, DriverApplied(input, Driver(company, "", "", None, false)), clash || newId in db.drivers)
  }

  function UpdateDriver(db: Db, company: string, raw: string, input: DriverInput, clash: bool): (Db, Reply<string>) {
    var found := FindDriver(db, company, raw);
    if found.None? then (db, Refused(NotFound))
    else DriverStored(db, found.value, DriverApplied(input, db.drivers[found.value]), clash)
  }

  /** Retires a driver, then releases the vehicles that name the id as the caller spelled it. */
  function DeleteDriver(db: Db, company: string, raw: string): (Db, Reply<string>) {
    var found := FindDriver(db, company, raw);
    if found.None? then (db, Refused(NotFound))
    else (db.(drivers := db.drivers[found.value := db.drivers[found.value].(deleted := true)],
              vehicles := Unpaired(db.vehicles, company, raw, None)),
          Ok(found.value))
  }

  // ----- Devices -----

  function TrackerStored(db: Db, id: string, taken: bool, t: Tracker): (Db, Reply<string>) {
    var w := TrackerWritten(t);
    if taken || TrackerClash(db.trackers, id, w) then (db, Refused(Conflict))
    else (db.(trackers := db.trackers[id := w]), Ok(id))
  }

  function CreateTracker(db: Db, company: string, input: TrackerInput, newId: string): (Db, Reply<string>) {
    var blank := Tracker(if company == "" then None else Some(company), NoKind, "", "", None, "", false);
    var applied := TrackerApplied(input, blank, true);
    if applied.Refused? then (db, Refused(applied.error))
    else
      var t := if applied.value.kind == NoKind then applied.value.(kind := Gps) else applied.value;
      if NormaliseDevice(t.kind, t.deviceId) == "" then (db, Refused(Validation))
      else if t.kind == Gps && |Imei(t.deviceId)| != 15 then (db, Refused(Validation))
      else TrackerStored(db, newId, newId in db.trackers, t)
  }

  /** Staff find a device whatever its company, and may hand it to another. */
  function UpdateTracker(db: Db, company: string, raw: string, input: TrackerInput, staff: bool): (Db, Reply<string>) {
    var found := FindTracker(db, if staff then "" else company, raw);
    if found.None? then (db, Refused(NotFound))
    else
      var applied := TrackerApplied(input, db.trackers[found.value], false);
      if applied.Refused? then (db, Refused(applied.error))
      else
        var owned := if staff then applied.value.(companyId := Patched(applied.value.companyId, input.companyId)) else applied.value;
        TrackerStored(db, found.value, false, owned)
  }

  function DeleteTracker(db: Db, company: string, raw: string): (Db, Reply<string>) {
    var found := FindTracker(db, company, raw);
    if found.None? then (db, Refused(NotFound))
    else if exists a :: a in db.assignments && a.trackerId == raw && Open(a) then (db, Refused(Conflict))
    else (db.(trackers := db.trackers[found.value := db.trackers[found.value].(deleted := true)]), Ok(found.value))
  }

  // ----- Fitting -----

  function Closed(a: Assignment, at: Time): Assignment {
    a.(unfittedAt := Some(at))
  }

  function CloseDevice(rows: seq<Assignment>, tracker: string, at: Time): seq<Assignment> {
    seq(|rows|, i requires 0 <= i < |rows| =>
      if rows[i].trackerId == tracker && Open(rows[i]) then Closed(rows[i], at) else rows[i])
  }

  function CloseSlot(rows: seq<Assignment>, vehicle: string, devices: set<string>, at: Time): seq<Assignment> {
    seq(|rows|, i requires 0 <= i < |rows| =>
      if rows[i].vehicleId == vehicle && Open(rows[i]) && rows[i].trackerId in devices then Closed(rows[i], at) else rows[i])
  }

  /** Clears a device from every vehicle that names it, except one. */
  function Unlinked(vehicles: map<string, Vehicle>, tracker: string, except: Option<string>): map<string, Vehicle> {
    map u | u in vehicles ::
      if vehicles[u].trackerId == Some(tracker) && except != Some(u) then vehicles[u].(trackerId := None) else vehicles[u]
  }

  function Linked(vehicles: map<string, Vehicle>, vehicle: string, tracker: string): map<string, Vehicle> {
    if vehicle in vehicles then vehicles[vehicle := vehicles[vehicle].(trackerId := Some(tracker))] else vehicles
  }

  /** Everything a fitting has decided before its first write. */
  datatype Plan = Plan(tracker: string, vehicle: string, kindIds: set<string>, row: Assignment)

  function LiveOfKind(db: Db, kind: DeviceKind): set<string> {
    set u | u in db.trackers && db.trackers[u].kind == kind && !db.trackers[u].deleted
  }

  function FitPlan(db: Db, company: string, rawTracker: string, input: FitInput, now: Time): Reply<Plan> {
    var t := FindTracker(db, company, rawTracker);
    if t.None? then Refused(NotFound)
    else if db.trackers[t.value].status !in {"active", ""} then Refused(Validation)
    else
      var v := FindVehicle(db, company, input.vehicleId);
      if v.None? then Refused(Validation)
      else
        var at := if input.fittedAt.Some? then input.fittedAt.value else now;
        var device := db.trackers[t.value];
        if at > now + MINUTE then Refused(Validation)
        else Ok(Plan(t.value, v.value, LiveOfKind(db, device.kind),
                     AssignmentWritten(Assignment(company, t.value, v.value, device.kind, device.deviceId, device.imei, at, None))))
  }

  function FitSize(p: Plan): nat {
    if p.row.kind == Gps then 5 else 3
  }

  function FitWrite(db: Db, p: Plan, step: nat): Db
    requires step < 5
  {
    match step
    case 0 => db.(assignments := CloseDevice(db.assignments, p.tracker, p.row.fittedAt))
    case 1 => db.(assignments := CloseSlot(db.assignments, p.vehicle, p.kindIds, p.row.fittedAt))
    case 2 => db.(assignments := db.assignments + [p.row])
    case 3 => db.(vehicles := Unlinked(db.vehicles, p.tracker, Some(p.vehicle)))
    case _ => db.(vehicles := Linked(db.vehicles, p.vehicle, p.tracker))
  }

  /** The first n writes of a fitting, in their order. */
  function FitWrites(db: Db, p: Plan, n: nat): Db
    requires n <= 5
  {
    if n == 0 then db else FitWrite(FitWrites(db, p, n - 1), p, n - 1)
  }

  /** How a multi-write operation runs: inside a transaction or not, and after how many writes the store is lost. */
  datatype Conditions = Conditions(transactional: bool, lostAfter: Option<nat>)

  const ALL_WELL := Conditions(true, None)

  predicate Completes(how: Conditions, size: nat) {
    how.lostAfter.None? || size <= how.lostAfter.value
  }

  /** How many writes of an operation of this size are there afterwards. */
  function Survivors(how: Conditions, size: nat): (n: nat)
    ensures n <= size
  {
    if Completes(how, size) then size else if how.transactional then 0 else how.lostAfter.value
  }

  function Fit(db: Db, company: string, rawTracker: string, input: FitInput, now: Time, how: Conditions): (Db, Reply<string>) {
    var plan := FitPlan(db, company, rawTracker, input, now);
    if plan.Refused? then (db, Refused(plan.error))
    else
      var size := FitSize(plan.value);
      (FitWrites(db, plan.value, Survivors(how, size)),
       if Completes(how, size) then Ok(plan.value.tracker) else Refused(StoreFailed))
  }

  function UnfitWrites(db: Db, tracker: string, at: Time, n: nat): Db {
    var closed := db.(assignments := CloseDevice(db.assignments, tracker, at));
    if n == 0 then db else if n == 1 then closed else closed.(vehicles := Unlinked(db.vehicles, tracker, None))
  }

  function Unfit(db: Db, company: string, rawTracker: string, at: Time, how: Conditions): (Db, Reply<string>) {
    var t := FindTracker(db, company, rawTracker);
    if t.None? then (db, Refused(NotFound))
    else if how.lostAfter == Some(0) then (db, Refused(StoreFailed))
    else if !exists a :: a in db.assignments && a.trackerId == t.value && Open(a) then (db, Refused(Conflict))
    else
      var size := if db.trackers[t.value].kind == Gps then 2 else 1;
      (UnfitWrites(db, t.value, at, Survivors(how, size)),
       if Completes(how, size) then Ok(t.value) else Refused(StoreFailed))
  }

  // ----- One step of a run -----

  datatype Op =
    | OpCreateVehicle(company: string, vehicle: VehicleInput, newId: string)
    | OpUpdateVehicle(company: string, id: string, vehicle: VehicleInput)
    | OpDeleteVehicle(company: string, id: string)
    | OpCreateDriver(company: string, driver: DriverInput, newId: string, clash: bool)
    | OpUpdateDriver(company: string, id: string, driver: DriverInput, clash: bool)
    | OpDeleteDriver(company: string, id: string)
    | OpCreateTracker(company: string, tracker: TrackerInput, newId: string)
    | OpUpdateTracker(company: string, id: string, tracker: TrackerInput, staff: bool)
    | OpDeleteTracker(company: string, id: string)
    | OpFit(company: string, id: string, fit: FitInput, now: Time, how: Conditions)
    | OpUnfit(company: string, id: string, at: Time, how: Conditions)

  function Step(db: Db, op: Op): (Db, Reply<string>) {
    match op
    case OpCreateVehicle(c, input, newId) => CreateVehicle(db, c, input, newId)
    case OpUpdateVehicle(c, id, input) => UpdateVehicle(db, c, id, input)
    case OpDeleteVehicle(c, id) => DeleteVehicle(db, c, id)
    case OpCreateDriver(c, input, newId, clash) => CreateDriver(db, c, input, newId, clash)
    case OpUpdateDriver(c, id, input, clash) => UpdateDriver(db, c, id, input, clash)
    case OpDeleteDriver(c, id) => DeleteDriver(db, c, id)
    case OpCreateTracker(c, input, newId) => CreateTracker(db, c, input, newId)
    case OpUpdateTracker(c, id, input, staff) => UpdateTracker(db, c, id, input, staff)
    case OpDeleteTracker(c, id) => DeleteTracker(db, c, id)
    case OpFit(c, id, input, now, how) => Fit(db, c, id, input, now, how)
    case OpUnfit(c, id, at, how) => Unfit(db, c, id, at, how)
  }
}
