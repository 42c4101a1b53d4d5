/** Which operations of the register are accepted, and what is answered otherwise. */
module RegistryAccepts {
  import opened Wrappers
  import opened Text
  import opened Normalise
  import opened Records
  import opened Registry
  import opened Fitting
  import opened FleetRules
  import opened RegistryPromises

  /** What was typed, without its outer space; blank is nothing. */
  function Typed(given: Option<string>): Option<string> {
    if given.None? || Trim(given.value) == "" then None else Some(Trim(given.value))
  }

  // ----- Vehicles -----

  /** Another live vehicle has the registration within the company, or the chassis number anywhere. */
  ghost predicate VehicleKnown(vs: map<string, Vehicle>, id: string, company: string, plate: string, chassis: Option<string>) {
    exists u :: u in vs && u != id && !vs[u].deleted &&
      (|| (vs[u].companyId == company && SamePlate(vs[u].licensePlate, plate))
       || (Indexed(chassis) && Indexed(vs[u].chassisNumber) && SamePlate(vs[u].chassisNumber.value, chassis.value)))
  }

  /** There is a number, and something in it to compare. */
  predicate Indexed(chassis: Option<string>) {
    chassis.Some? && Trim(chassis.value) != "" && exists c :: c in chassis.value && IsAlnum(c)
  }

  lemma IndexedExactly(chassis: Option<string>)
    ensures Indexed(chassis) <==> Optional(Serial, chassis).Some?
  {
    if chassis.Some? { SaysSomething(chassis.value); }
  }

  lemma {:induction false} SaysSomething(s: string)
    ensures Plate(s) != "" <==> exists c :: c in s && IsAlnum(c)
  {
    if s != "" {
      SaysSomething(s[1..]);
      assert forall c :: c in s <==> c == s[0] || c in s[1..];
    }
  }

  lemma ClashExactly(vs: map<string, Vehicle>, id: string, v: Vehicle)
    requires forall u :: u in vs ==> TwinsFilled(vs[u])
    requires !v.deleted
    ensures VehicleClash(vs, id, VehicleWritten(v)) <==> VehicleKnown(vs, id, v.companyId, v.licensePlate, v.chassisNumber)
  {
    IndexedExactly(v.chassisNumber);
    forall u | u in vs
      ensures SamePlate(vs[u].licensePlate, v.licensePlate) <==> vs[u].plateNormalised == Plate(v.licensePlate)
      ensures Indexed(vs[u].chassisNumber) <==> vs[u].chassisNormalised.Some?
      ensures Indexed(v.chassisNumber) && Indexed(vs[u].chassisNumber) ==>
                (SamePlate(vs[u].chassisNumber.value, v.chassisNumber.value) <==> vs[u].chassisNormalised == Optional(Serial, v.chassisNumber))
    {
      PlateIdentifies(vs[u].licensePlate, v.licensePlate);
      IndexedExactly(vs[u].chassisNumber);
      if Indexed(v.chassisNumber) && Indexed(vs[u].chassisNumber) { PlateIdentifies(vs[u].chassisNumber.value, v.chassisNumber.value); }
    }
  }

  /** No group, or a live one of the company. */
  predicate GroupGiven(db: Db, company: string, group: Option<string>) {
    group.None? || group.value == "" || exists ref ::
      ref in db.docs && ref.kind == "vehicleGroup" && ObjectId(group.value) == Some(ref.id)
      && db.docs[ref].companyId == Some(company) && !db.docs[ref].deleted
  }

  /** No driver, or a live and active one of the company. */
  predicate DriverGiven(db: Db, company: string, driver: Option<string>) {
    Typed(driver).None? || exists d ::
      Oid(driver.value) == Some(d) && d in db.drivers
      && db.drivers[d].companyId == company && !db.drivers[d].deleted && db.drivers[d].status == "active"
  }

  lemma GuardsExactly(db: Db, company: string, id: string, creating: bool, v: Vehicle, driver: Option<string>)
    requires TwinInv(db) && !v.deleted
    ensures SaveAccepted(db, company, id, creating, v, driver) <==>
              && GroupGiven(db, company, v.truckGroupId) && DriverGiven(db, company, driver)
              && (exists c :: c in v.licensePlate && IsAlnum(c)) && !(creating && id in db.vehicles)
              && !VehicleKnown(db.vehicles, id, v.companyId, v.licensePlate, v.chassisNumber)
  {
    ClashExactly(db.vehicles, id, v);
    SaysSomething(v.licensePlate);
    if group :| group == v.truckGroupId && group.Some? && group.value != "" && GroupAccepted(db, company, group) {
      assert DocRef(VEHICLE_GROUP, ObjectId(group.value).value) in db.docs;
    }
  }

  /** A vehicle is added exactly when it can be told apart, and its group and driver are the company's. */
  lemma CreateVehicleExactly(db: Db, company: string, input: VehicleInput, newId: string)
    requires TwinInv(db)
    ensures CreateVehicle(db, company, input, newId).1.Ok? <==>
              && input.licensePlate.Some? && (exists c :: c in Trim(input.licensePlate.value) && IsAlnum(c)) && newId !in db.vehicles
              && GroupGiven(db, company, Typed(input.truckGroupId)) && DriverGiven(db, company, input.currentDriverId)
              && !VehicleKnown(db.vehicles, newId, company, Trim(input.licensePlate.value), Typed(input.chassisNumber))
  {
    var v := VehicleApplied(input, NewVehicle(company));
    SavedExactly(db, company, newId, true, v, input.currentDriverId);
    GuardsExactly(db, company, newId, true, v, input.currentDriverId);
  }

  /** An update likewise, with what is not typed as it was. */
  lemma UpdateVehicleExactly(db: Db, company: string, raw: string, input: VehicleInput)
    requires TwinInv(db)
    ensures UpdateVehicle(db, company, raw, input).1.Ok? <==>
              var found := FindVehicle(db, company, raw);
              && found.Some?
              && var v := db.vehicles[found.value];
                 var plate := if input.licensePlate.Some? then Trim(input.licensePlate.value) else v.licensePlate;
                 && (exists c :: c in plate && IsAlnum(c))
                 && GroupGiven(db, company, if input.truckGroupId.Some? then Typed(input.truckGroupId) else v.truckGroupId)
                 && DriverGiven(db, company, input.currentDriverId)
                 && !VehicleKnown(db.vehicles, found.value, company, plate,
                                  if input.chassisNumber.Some? then Typed(input.chassisNumber) else v.chassisNumber)
  {
    var found := FindVehicle(db, company, raw);
    if found.Some? {
      var v := VehicleApplied(input, db.vehicles[found.value]);
      SavedExactly(db, company, found.value, false, v, input.currentDriverId);
      GuardsExactly(db, company, found.value, false, v, input.currentDriverId);
    }
  }

  /** A vehicle is retired exactly when nothing is fitted to the id as typed and it has no tracker, and only marked. */
  lemma DeleteVehicleExactly(db: Db, company: string, raw: string)
    ensures var found := FindVehicle(db, company, raw);
            DeleteVehicle(db, company, raw) ==
            if found.None? then (db, Refused(NotFound))
            else if db.vehicles[found.value].trackerId.Some? || VehicleFitted(db, raw) then (db, Refused(Conflict))
            else (db.(vehicles := db.vehicles[found.value := db.vehicles[found.value].(deleted := true)]), Ok(found.value))
  {
    if a :| a in db.assignments && a.vehicleId == raw && Open(a) {
      var i :| 0 <= i < |db.assignments| && db.assignments[i] == a;
      assert VehicleFitted(db, raw);
    }
  }

  // ----- Drivers -----

  /** Active, inactive, or not said. */
  predicate DriverStatus(status: string) {
    status in {"active", "inactive", ""}
  }

  ghost predicate LoginTaken(ds: map<string, Driver>, id: string, login: Option<string>) {
    login.Some? && exists u :: u in ds && u != id && !ds[u].deleted && ds[u].userId == login
  }

  lemma CreateDriverExactly(db: Db, company: string, input: DriverInput, newId: string, clash: bool)
    ensures CreateDriver(db, company, input, newId, clash).1 ==
            if Typed(input.fullName).None? || (input.status.Some? && !DriverStatus(Lower(Trim(input.status.value)))) then Refused(Validation)
            else if clash || newId in db.drivers || LoginTaken(db.drivers, newId, Typed(input.userId)) then Refused(Conflict)
            else Ok(newId)
  {
    assert Trim("") == "";
  }

  lemma UpdateDriverExactly(db: Db, company: string, raw: string, input: DriverInput, clash: bool)
    ensures var found := FindDriver(db, company, raw);
            UpdateDriver(db, company, raw, input, clash).1 ==
            if found.None? then Refused(NotFound)
            else
              var d := db.drivers[found.value];
              if Trim(if input.fullName.Some? then input.fullName.value else d.fullName) == ""
                 || !DriverStatus(if input.status.Some? then Lower(Trim(input.status.value)) else d.status) then Refused(Validation)
              else if clash || LoginTaken(db.drivers, found.value, if input.userId.Some? then Typed(input.userId) else d.userId)
              then Refused(Conflict)
              else Ok(found.value)
  {
  }

  /** A driver is only marked, and leaves the company's trucks that name the id as typed. */
  lemma DeleteDriverExactly(db: Db, company: string, raw: string)
    ensures var (found, (db', r)) := (FindDriver(db, company, raw), DeleteDriver(db, company, raw));
            if found.None? then r == Refused(NotFound) && db' == db
            else
              && r == Ok(found.value)
              && db'.drivers == db.drivers[found.value := db.drivers[found.value].(deleted := true)]
              && db' == db.(drivers := db'.drivers, vehicles := db'.vehicles)
              && db'.vehicles.Keys == db.vehicles.Keys
              && forall u :: u in db.vehicles ==> var v := db.vehicles[u];
                   db'.vehicles[u] == if v.companyId == company && v.currentDriverId == Some(raw)
                                      then v.(currentDriverId := None, currentDriverUserId := None) else v
  {
  }

  // ----- Devices -----

  /** A live device is this one, or has this card. */
  ghost predicate DeviceKnown(ts: map<string, Tracker>, id: string, kind: DeviceKind, device: string, card: Option<string>) {
    exists u :: u in ts && u != id && !ts[u].deleted &&
      ((ts[u].kind == kind && ts[u].deviceId == device) || (card.Some? && ts[u].iccid == card))
  }

  lemma DeviceClashExactly(ts: map<string, Tracker>, id: string, t: Tracker)
    requires IdentitiesStored(ts) && IdentityStored(t) && !t.deleted
    ensures TrackerClash(ts, id, t) <==> DeviceKnown(ts, id, t.kind, t.deviceId, t.iccid)
  {
    forall u | u in ts ensures IdentityStored(ts[u]) { }
  }

  /** What kind was typed, and GPS where none was. */
  function KindTyped(kind: Option<string>): Option<DeviceKind> {
    if kind.None? || Lower(Trim(kind.value)) == "gps" then Some(Gps)
    else if Lower(Trim(kind.value)) == "dashcam" then Some(Dashcam) else None
  }

  function DeviceTyped(kind: DeviceKind, input: TrackerInput): string {
    var given := if input.deviceId.Some? then input.deviceId.value else if input.imei.Some? then input.imei.value else "";
    if kind == Gps then Imei(given) else Trim(given)
  }

  /** A device is registered exactly when its kind is known, its number is one for its kind, and nobody has it. */
  lemma CreateTrackerExactly(db: Db, company: string, input: TrackerInput, newId: string)
    requires IdentitiesStored(db.trackers)
    ensures var kind := KindTyped(input.kind);
            CreateTracker(db, company, input, newId).1 ==
            if kind.None? then Refused(Validation)
            else
              var device := DeviceTyped(kind.value, input);
              if (if kind == Some(Gps) then |device| != 15 else device == "") then Refused(Validation)
              else if newId in db.trackers || DeviceKnown(db.trackers, newId, kind.value, device, CardOf(input.iccid)) then Refused(Conflict)
              else Ok(newId)
  {
    var blank := Tracker(if company == "" then None else Some(company), NoKind, "", "", None, "", false);
    var applied := TrackerApplied(input, blank, true);
    DeviceFolds(input);
    IccidSays(input.iccid, None);
    if applied.Ok? {
      var t := if applied.value.kind == NoKind then applied.value.(kind := Gps) else applied.value;
      var w := TrackerWritten(t);
      if w.deviceId != "" && (w.kind == Gps ==> |w.deviceId| == 15) { DeviceClashExactly(db.trackers, newId, w); }
    }
  }

  lemma DeviceFolds(input: TrackerInput)
    ensures var given := if input.deviceId.Some? then input.deviceId.value else if input.imei.Some? then input.imei.value else "";
            && Imei(Trim(given)) == Imei(given) && Trim(Trim(given)) == Trim(given) && Imei(Imei(given)) == Imei(given)
            && Imei("") == "" && Trim("") == ""
  {
    var given := if input.deviceId.Some? then input.deviceId.value else if input.imei.Some? then input.imei.value else "";
    TrimIdempotent(given);
    TwinsIgnoreTrim(given);
    FoldingIsIdempotent(given);
  }

  /** An update is accepted exactly when it does not make the device another, and nobody else has its card. */
  lemma UpdateTrackerExactly(db: Db, company: string, raw: string, input: TrackerInput, staff: bool)
    requires IdentitiesStored(db.trackers)
    ensures var found := FindTracker(db, if staff then "" else company, raw);
            UpdateTracker(db, company, raw, input, staff).1 ==
            if found.None? then Refused(NotFound)
            else
              var t := db.trackers[found.value];
              if KindTyped(input.kind).None? then Refused(Validation)
              else if input.kind.Some? && KindTyped(input.kind) != Some(t.kind) then Refused(Conflict)
              else if (input.deviceId.Some? || input.imei.Some?) && DeviceTyped(t.kind, input) != t.deviceId then Refused(Conflict)
              else if DeviceKnown(db.trackers, found.value, t.kind, t.deviceId, CardOf(if input.iccid.Some? then input.iccid else t.iccid))
              then Refused(Conflict)
              else Ok(found.value)
  {
    var found := FindTracker(db, if staff then "" else company, raw);
    if found.Some? {
      var t := db.trackers[found.value];
      assert IdentityStored(t);
      DeviceFolds(input);
      var applied := TrackerApplied(input, t, false);
      if applied.Ok? {
        var owner := if staff then Patched(applied.value.companyId, input.companyId) else applied.value.companyId;
        var w := TrackerWritten(applied.value.(companyId := owner));
        IccidSays(input.iccid, t.iccid);
        UpdateKeepsIdentity(t, input, owner);
        DeviceClashExactly(db.trackers, found.value, w);
      }
    }
  }

  /** A device is retired exactly when nothing is fitted under the id as typed, and only marked. */
  lemma DeleteTrackerExactly(db: Db, company: string, raw: string)
    ensures var found := FindTracker(db, company, raw);
            DeleteTracker(db, company, raw) ==
            if found.None? then (db, Refused(NotFound))
            else if DeviceFitted(db, raw) then (db, Refused(Conflict))
            else (db.(trackers := db.trackers[found.value := db.trackers[found.value].(deleted := true)]), Ok(found.value))
  {
    if a :| a in db.assignments && a.trackerId == raw && Open(a) {
      var i :| 0 <= i < |db.assignments| && db.assignments[i] == a;
      assert DeviceFitted(db, raw);
    }
  }
}
