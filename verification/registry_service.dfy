/** The register as the object the handlers call: the same operations, one write after another. */
module RegistryServices {
  import opened Wrappers
  import opened Text
  import opened Normalise
  import opened Records
  import opened Registry
  import opened Fitting
  import opened FittingOutcomes
  import opened RegistryPromises
  import opened Rules

  /** Of the rules that held, the operation keeps exactly those it spares. */
  ghost predicate KeepsRules(before: Db, op: Registry.Op, after: Db) {
    forall rule :: Holds(rule, before) ==> (Holds(rule, after) <==> SparesStep(rule, before, op))
  }

  lemma OperationKeepsRules(db: Db, op: Registry.Op)
    ensures KeepsRules(db, op, Step(db, op).0)
  {
    forall rule | Holds(rule, db) ensures Holds(rule, Step(db, op).0) <==> SparesStep(rule, db, op) {
      StepKeepsExactly(rule, db, op);
    }
  }

  class RegistryService {
    var trackers: map<string, Tracker>
    var vehicles: map<string, Vehicle>
    var drivers: map<string, Driver>
    var assignments: seq<Assignment>
    var docs: map<DocRef, Doc>

    function State(): Db
      reads this
    {
      Db(trackers, vehicles, drivers, assignments, docs)
    }

    constructor (db: Db)
      ensures State() == db
    {
      trackers, vehicles, drivers, assignments, docs := db.trackers, db.vehicles, db.drivers, db.assignments, db.docs;
    }

    // ----- Vehicles -----

    /** `unpairDriverElsewhere`: find the others, and write only if there are any. */
    method UnpairElsewhere(company: string, driver: string, except: Option<string>) returns (changed: set<string>)
      modifies this`vehicles
      ensures vehicles == Unpaired(old(vehicles), company, driver, except)
      ensures changed == set u | u in old(vehicles) && old(vehicles)[u] != vehicles[u]
    {
      changed := set u | u in vehicles && vehicles[u].companyId == company && vehicles[u].currentDriverId == Some(driver) && except != Some(u);
      if changed == {} {
        assert forall u :: u in vehicles ==> u !in changed;
        assert Unpaired(vehicles, company, driver, except) == vehicles;
      } else {
        vehicles := Unpaired(vehicles, company, driver, except);
      }
    }

    method ChooseDriver(company: string, self: Option<string>, v: Vehicle, driver: Option<string>) returns (r: Reply<Vehicle>)
      modifies this`vehicles
      ensures var spec := SetDriver(old(State()), company, self, v, driver);
              if spec.Ok? then r == Ok(spec.value.vehicle) && State() == spec.value.db
              else r == Refused(spec.error) && State() == old(State())
    {
      if driver.None? { return Ok(v); }
      if Trim(driver.value) == "" { return Ok(Released(v)); }
      var found := FindDriver(State(), company, driver.value);
      if found.None? { return Refused(Validation); }
      var d := drivers[found.value];
      if d.status != "active" { return Refused(Validation); }
      if v.currentDriverId == found { return Ok(v); }
      var _ := UnpairElsewhere(company, found.value, self);
      return Ok(v.(currentDriverId := found, currentDriverUserId := d.userId));
    }

    /** The store's create and update: twins, validation, then the indexes. */
    method StoreVehicle(id: string, creating: bool, v: Vehicle) returns (r: Reply<string>)
      modifies this`vehicles
      ensures (State(), r) == VehicleStored(old(State()), id, creating && id in old(vehicles), v)
    {
      var w := VehicleWritten(v);
      if !VehicleValid(w) { return Refused(Validation); }
      if creating && id in vehicles { return Refused(Conflict); }
      if VehicleClash(vehicles, id, w) { return Refused(Conflict); }
      vehicles := vehicles[id := w];
      return Ok(id);
    }

    method SaveVehicle(company: string, id: string, creating: bool, v: Vehicle, driver: Option<string>) returns (r: Reply<string>)
      modifies this`vehicles
      ensures (State(), r) == VehicleSaved(old(State()), company, id, creating, v, driver)
    {
      if !GroupAccepted(State(), company, v.truckGroupId) { return Refused(Validation); }
      var paired := ChooseDriver(company, if creating then None else Some(id), v, driver);
      if paired.Refused? { return Refused(paired.error); }
      r := StoreVehicle(id, creating, paired.value);
    }

    method CreateVehicle(company: string, input: VehicleInput, newId: string) returns (r: Reply<string>)
      modifies this`vehicles
      ensures (State(), r) == Registry.CreateVehicle(old(State()), company, input, newId)
      ensures KeepsRules(old(State()), OpCreateVehicle(company, input, newId), State())
      ensures r.Ok? ==>
        && r.value == newId && newId !in old(vehicles) && newId in vehicles
        && VehicleSays(vehicles[newId], NewVehicle(company), input) && OthersKept(old(vehicles), vehicles, newId)
    {
      OperationKeepsRules(State(), OpCreateVehicle(company, input, newId));
      if Registry.CreateVehicle(State(), company, input, newId).1.Ok? { CreateVehicleSays(State(), company, input, newId); }
      var v := VehicleApplied(input, NewVehicle(company));
      r := SaveVehicle(company, newId, true, v, input.currentDriverId);
    }

    method UpdateVehicle(company: string, raw: string, input: VehicleInput) returns (r: Reply<string>)
      modifies this`vehicles
      ensures (State(), r) == Registry.UpdateVehicle(old(State()), company, raw, input)
      ensures KeepsRules(old(State()), OpUpdateVehicle(company, raw, input), State())
      ensures r.Ok? ==>
        && Some(r.value) == Oid(raw) && r.value in old(vehicles) && r.value in vehicles
        && old(vehicles)[r.value].companyId == company
        && VehicleSays(vehicles[r.value], old(vehicles)[r.value], input) && OthersKept(old(vehicles), vehicles, r.value)
    {
      OperationKeepsRules(State(), OpUpdateVehicle(company, raw, input));
      if Registry.UpdateVehicle(State(), company, raw, input).1.Ok? { UpdateVehicleSays(State(), company, raw, input); }
      var found := FindVehicle(State(), company, raw);
      if found.None? { return Refused(NotFound); }
      var v := VehicleApplied(input, vehicles[found.value]);
      r := SaveVehicle(company, found.value, false, v, input.currentDriverId);
    }

    method DeleteVehicle(company: string, raw: string) returns (r: Reply<string>)
      modifies this`vehicles
      ensures (State(), r) == Registry.DeleteVehicle(old(State()), company, raw)
      ensures KeepsRules(old(State()), OpDeleteVehicle(company, raw), State())
    {
      OperationKeepsRules(State(), OpDeleteVehicle(company, raw));
      var found := FindVehicle(State(), company, raw);
      if found.None? { return Refused(NotFound); }
      var id := found.value;
      if exists a :: a in assignments && a.vehicleId == raw && Open(a) { return Refused(Conflict); }
      if vehicles[id].trackerId.Some? { return Refused(Conflict); }
      vehicles := vehicles[id := vehicles[id].(deleted := true)];
      return Ok(id);
    }

    // ----- Drivers -----

    method StoreDriver(id: string, d: Driver, clash: bool) returns (r: Reply<string>)
      modifies this`drivers
      ensures (State(), r) == DriverStored(old(State()), id, d, clash)
    {
      var w := DriverWritten(d);
      if !DriverValid(w) { return Refused(Validation); }
      if clash || DriverClash(drivers, id, w) { return Refused(Conflict); }
      drivers := drivers[id := w];
      return Ok(id);
    }

    method CreateDriver(company: string, input: DriverInput, newId: string, clash: bool) returns (r: Reply<string>)
      modifies this`drivers
      ensures (State(), r) == Registry.CreateDriver(old(State()), company, input, newId, clash)
      ensures KeepsRules(old(State()), OpCreateDriver(company, input, newId, clash), State())
      ensures r.Ok? ==>
        && r.value == newId && newId !in old(drivers) && newId in drivers && drivers == old(drivers)[newId := drivers[newId]]
        && DriverSays(drivers[newId], Driver(company, "", "", None, false), input) && LoginIsOnes(drivers, newId)
    {
      OperationKeepsRules(State(), OpCreateDriver(company, input, newId, clash));
      if Registry.CreateDriver(State(), company, input, newId, clash).1.Ok? { CreateDriverSays(State(), company, input, newId, clash); }
      var d := DriverApplied(input, Driver(company, "", "", None, false));
      r := StoreDriver(newId, d, clash || newId in drivers);
    }

    method UpdateDriver(company: string, raw: string, input: DriverInput, clash: bool) returns (r: Reply<string>)
      modifies this`drivers
      ensures (State(), r) == Registry.UpdateDriver(old(State()), company, raw, input, clash)
      ensures KeepsRules(old(State()), OpUpdateDriver(company, raw, input, clash), State())
      ensures r.Ok? ==>
        && Some(r.value) == Oid(raw) && r.value in old(drivers) && r.value in drivers && drivers == old(drivers)[r.value := drivers[r.value]]
        && old(drivers)[r.value].companyId == company
        && DriverSays(drivers[r.value], old(drivers)[r.value], input) && LoginIsOnes(drivers, r.value)
    {
      OperationKeepsRules(State(), OpUpdateDriver(company, raw, input, clash));
      if Registry.UpdateDriver(State(), company, raw, input, clash).1.Ok? { UpdateDriverSays(State(), company, raw, input, clash); }
      var found := FindDriver(State(), company, raw);
      if found.None? { return Refused(NotFound); }
      r := StoreDriver(found.value, DriverApplied(input, drivers[found.value]), clash);
    }

    /** The driver goes first; the vehicles are released by the id as given. */
    method DeleteDriver(company: string, raw: string) returns (r: Reply<string>)
      modifies this`drivers, this`vehicles
      ensures (State(), r) == Registry.DeleteDriver(old(State()), company, raw)
      ensures KeepsRules(old(State()), OpDeleteDriver(company, raw), State())
    {
      OperationKeepsRules(State(), OpDeleteDriver(company, raw));
      var found := FindDriver(State(), company, raw);
      if found.None? { return Refused(NotFound); }
      var id := found.value;
      drivers := drivers[id := drivers[id].(deleted := true)];
      vehicles := Unpaired(vehicles, company, raw, None);
      return Ok(id);
    }

    // ----- Devices -----

    /** The store's create and update of a device: identity folded, then the indexes. */
    method StoreTracker(id: string, creating: bool, t: Tracker) returns (r: Reply<string>)
      modifies this`trackers
      ensures (State(), r) == TrackerStored(old(State()), id, creating && id in old(trackers), t)
    {
      var w := TrackerWritten(t);
      if creating && id in trackers { return Refused(Conflict); }
      if TrackerClash(trackers, id, w) { return Refused(Conflict); }
      trackers := trackers[id := w];
      return Ok(id);
    }

    method CreateTracker(company: string, input: TrackerInput, newId: string) returns (r: Reply<string>)
      modifies this`trackers
      ensures (State(), r) == Registry.CreateTracker(old(State()), company, input, newId)
      ensures KeepsRules(old(State()), OpCreateTracker(company, input, newId), State())
      ensures CreatesDevice(old(State()), company, input, newId, r, State())
    {
      OperationKeepsRules(State(), OpCreateTracker(company, input, newId));
      CreationPromised(State(), company, input, newId);
      var t := Tracker(None, NoKind, "", "", None, "", false);
      if company != "" { t := t.(companyId := Some(company)); }
      var applied := TrackerApplied(input, t, true);
      if applied.Refused? { return Refused(applied.error); }
      t := applied.value;
      if t.kind == NoKind { t := t.(kind := Gps); }
      if NormaliseDevice(t.kind, t.deviceId) == "" { return Refused(Validation); }
      if t.kind == Gps && |Imei(t.deviceId)| != 15 { return Refused(Validation); }
      r := StoreTracker(newId, true, t);
    }

    method UpdateTracker(company: string, raw: string, input: TrackerInput, staff: bool) returns (r: Reply<string>)
      modifies this`trackers
      ensures (State(), r) == Registry.UpdateTracker(old(State()), company, raw, input, staff)
      ensures KeepsRules(old(State()), OpUpdateTracker(company, raw, input, staff), State())
      ensures RewritesDevice(old(State()), raw, input, staff, r, State())
    {
      OperationKeepsRules(State(), OpUpdateTracker(company, raw, input, staff));
      UpdatePromised(State(), company, raw, input, staff);
      var found := FindTracker(State(), if staff then "" else company, raw);
      if found.None? { return Refused(NotFound); }
      var applied := TrackerApplied(input, trackers[found.value], false);
      if applied.Refused? { return Refused(applied.error); }
      var t := applied.value;
      if staff && input.companyId.Some? {
        t := t.(companyId := if Trim(input.companyId.value) == "" then None else Some(Trim(input.companyId.value)));
      }
      r := StoreTracker(found.value, false, t);
    }

    method DeleteTracker(company: string, raw: string) returns (r: Reply<string>)
      modifies this`trackers
      ensures (State(), r) == Registry.DeleteTracker(old(State()), company, raw)
      ensures KeepsRules(old(State()), OpDeleteTracker(company, raw), State())
    {
      OperationKeepsRules(State(), OpDeleteTracker(company, raw));
      var found := FindTracker(State(), company, raw);
      if found.None? { return Refused(NotFound); }
      if exists a :: a in assignments && a.trackerId == raw && Open(a) { return Refused(Conflict); }
      trackers := trackers[found.value := trackers[found.value].(deleted := true)];
      return Ok(found.value);
    }

    // ----- Fitting -----

    /** The five ordered writes; the store may be lost after any number of them. */
    method RunFit(p: Plan, lostAfter: Option<nat>) returns (done: bool)
      modifies this`assignments, this`vehicles
      ensures done <==> lostAfter.None? || FitSize(p) <= lostAfter.value
      ensures State() == FitWrites(old(State()), p, if done then FitSize(p) else lostAfter.value)
    {
      ghost var before := State();
      if lostAfter == Some(0) { return false; }
      // Take the device off the vehicle it is on, if any.
      assignments := CloseDevice(assignments, p.tracker, p.row.fittedAt);
      assert State() == FitWrites(before, p, 1);
      if lostAfter == Some(1) { return false; }
      // Empty the vehicle's slot for this kind of device.
      assignments := CloseSlot(assignments, p.vehicle, p.kindIds, p.row.fittedAt);
      assert State() == FitWrites(before, p, 2);
      if lostAfter == Some(2) { return false; }
      // Record the stretch that begins now.
      assignments := assignments + [p.row];
      assert State() == FitWrites(before, p, 3);
      if p.row.kind == Gps {
        if lostAfter == Some(3) { return false; }
        // Correct the copies: first where the device was, then where it is.
        vehicles := Unlinked(vehicles, p.tracker, Some(p.vehicle));
        assert State() == FitWrites(before, p, 4);
        if lostAfter == Some(4) { return false; }
        vehicles := Linked(vehicles, p.vehicle, p.tracker);
        assert State() == FitWrites(before, p, 5);
      }
      return true;
    }

    method Fit(company: string, rawTracker: string, input: FitInput, now: Time, how: Conditions) returns (r: Reply<string>)
      modifies this`assignments, this`vehicles
      ensures (State(), r) == Registry.Fit(old(State()), company, rawTracker, input, now, how)
      ensures r.Ok? && RegisterInv(old(State())) ==> FitDone(old(State()), company, rawTracker, input, now, State())
    {
      if RegisterInv(State()) { FitDoes(State(), company, rawTracker, input, now, how); }
      var plan := FitPlan(State(), company, rawTracker, input, now);
      if plan.Refused? { return Refused(plan.error); }
      var rows, fleet := assignments, vehicles;
      var done := RunFit(plan.value, how.lostAfter);
      if !done {
        if how.transactional { assignments, vehicles := rows, fleet; }
        return Refused(StoreFailed);
      }
      return Ok(plan.value.tracker);
    }

    /** The two writes; the first tells whether anything was fitted, and the store may be lost before the second. */
    method RunUnfit(tracker: string, gps: bool, at: Time, lostAfter: Option<nat>) returns (matched: bool, done: bool)
      requires lostAfter != Some(0)
      modifies this`assignments, this`vehicles
      ensures matched <==> exists a :: a in old(assignments) && a.trackerId == tracker && Open(a)
      ensures done <==> matched && !(gps && lostAfter == Some(1))
      ensures State() == UnfitWrites(old(State()), tracker, at, if !matched then 0 else if gps && done then 2 else 1)
    {
      var rows := assignments;
      assignments := CloseDevice(assignments, tracker, at);
      matched := exists a :: a in rows && a.trackerId == tracker && Open(a);
      if !matched {
        assert assignments == rows;
        return false, false;
      }
      if gps {
        if lostAfter == Some(1) { return true, false; }
        vehicles := Unlinked(vehicles, tracker, None);
      }
      return true, true;
    }

    method Unfit(company: string, rawTracker: string, at: Time, how: Conditions) returns (r: Reply<string>)
      modifies this`assignments, this`vehicles
      ensures (State(), r) == Registry.Unfit(old(State()), company, rawTracker, at, how)
      ensures r.Ok? ==> UnfitDone(old(State()), company, rawTracker, at, State())
    {
      UnfitDoes(State(), company, rawTracker, at, how);
      var found := FindTracker(State(), company, rawTracker);
      if found.None? { return Refused(NotFound); }
      if how.lostAfter == Some(0) { return Refused(StoreFailed); }
      var rows := assignments;
      var matched, done := RunUnfit(found.value, trackers[found.value].kind == Gps, at, how.lostAfter);
      if !matched { return Refused(Conflict); }
      if !done {
        if how.transactional { assignments := rows; }
        return Refused(StoreFailed);
      }
      return Ok(found.value);
    }
  }
}
