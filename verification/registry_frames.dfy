/** What each register operation can touch, stated once for the proofs about all of them. */
module RegistryFrames {
  import opened Wrappers
  import opened Records
  import opened Registry

  /** The three ways a save can end: nothing written, only the unpairing written, or the vehicle written too. */
  lemma SaveEnds(db: Db, company: string, id: string, creating: bool, v: Vehicle, driver: Option<string>)
    ensures var (db', r) := VehicleSaved(db, company, id, creating, v, driver);
            var paired := SetDriver(db, company, if creating then None else Some(id), v, driver);
      || (db' == db && r.Refused?)
      || (paired.Ok? && db' == paired.value.db && r.Refused?)
      || (&& paired.Ok? && r == Ok(id) && (creating ==> id !in db.vehicles) && GroupAccepted(db, company, v.truckGroupId)
          && var w := VehicleWritten(paired.value.vehicle);
             VehicleValid(w) && !VehicleClash(paired.value.db.vehicles, id, w)
             && db' == paired.value.db.(vehicles := paired.value.db.vehicles[id := w]))
  {
  }

  /** What setting a driver can change: nothing, the document alone, or the document and the trucks it is taken from. */
  lemma DriverEnds(db: Db, company: string, self: Option<string>, v: Vehicle, driver: Option<string>)
    requires SetDriver(db, company, self, v, driver).Ok?
    ensures var r := SetDriver(db, company, self, v, driver).value;
      || (r.db == db && (r.vehicle == v || r.vehicle == Released(v)))
      || exists d, login ::
           && d in db.drivers && !db.drivers[d].deleted && db.drivers[d].companyId == company
           && r.db == db.(vehicles := Unpaired(db.vehicles, company, d, self))
           && r.vehicle == v.(currentDriverId := Some(d), currentDriverUserId := login)
  {
    var r := SetDriver(db, company, self, v, driver).value;
    if r.db != db || (r.vehicle != v && r.vehicle != Released(v)) {
      var d := FindDriver(db, company, driver.value).value;
      assert r.vehicle == v.(currentDriverId := Some(d), currentDriverUserId := db.drivers[d].userId);
    }
  }

  lemma SaveFrame(db: Db, company: string, id: string, creating: bool, v: Vehicle, driver: Option<string>)
    ensures var db' := VehicleSaved(db, company, id, creating, v, driver).0; db' == db.(vehicles := db'.vehicles)
  {
    SaveEnds(db, company, id, creating, v, driver);
    var self := if creating then None else Some(id);
    if SetDriver(db, company, self, v, driver).Ok? { DriverEnds(db, company, self, v, driver); }
  }

  lemma CreateVehicleFrame(db: Db, company: string, input: VehicleInput, newId: string)
    ensures var db' := CreateVehicle(db, company, input, newId).0; db' == db.(vehicles := db'.vehicles)
  {
    SaveFrame(db, company, newId, true, VehicleApplied(input, NewVehicle(company)), input.currentDriverId);
  }

  lemma UpdateVehicleFrame(db: Db, company: string, raw: string, input: VehicleInput)
    ensures var db' := UpdateVehicle(db, company, raw, input).0; db' == db.(vehicles := db'.vehicles)
  {
    var found := FindVehicle(db, company, raw);
    if found.Some? { SaveFrame(db, company, found.value, false, VehicleApplied(input, db.vehicles[found.value]), input.currentDriverId); }
  }

  lemma DeleteVehicleEnds(db: Db, company: string, raw: string)
    ensures var (db', r) := DeleteVehicle(db, company, raw);
      if r.Refused? then db' == db
      else r.value in db.vehicles && db' == db.(vehicles := db.vehicles[r.value := db.vehicles[r.value].(deleted := true)])
  {
  }

  /** Drivers are only added, or rewritten in place within their company and live as before. */
  ghost predicate DriversStay(ds: map<string, Driver>, ds': map<string, Driver>) {
    forall d :: d in ds ==> d in ds' && ds'[d].companyId == ds[d].companyId && ds'[d].deleted == ds[d].deleted
  }

  lemma StoreDriverEnds(db: Db, id: string, d: Driver, clash: bool)
    requires id in db.drivers ==> clash || (d.companyId == db.drivers[id].companyId && d.deleted == db.drivers[id].deleted)
    ensures var db' := DriverStored(db, id, d, clash).0; db' == db.(drivers := db'.drivers) && DriversStay(db.drivers, db'.drivers)
  {
  }

  lemma CreateDriverEnds(db: Db, company: string, input: DriverInput, newId: string, clash: bool)
    ensures var db' := CreateDriver(db, company, input, newId, clash).0;
            db' == db.(drivers := db'.drivers) && DriversStay(db.drivers, db'.drivers)
  {
    StoreDriverEnds(db, newId, DriverApplied(input, Driver(company, "", "", None, false)), clash || newId in db.drivers);
  }

  lemma UpdateDriverEnds(db: Db, company: string, raw: string, input: DriverInput, clash: bool)
    ensures var db' := UpdateDriver(db, company, raw, input, clash).0;
            db' == db.(drivers := db'.drivers) && DriversStay(db.drivers, db'.drivers)
  {
    var found := FindDriver(db, company, raw);
    if found.Some? { StoreDriverEnds(db, found.value, DriverApplied(input, db.drivers[found.value]), clash); }
  }

  lemma DeleteDriverEnds(db: Db, company: string, raw: string)
    ensures var (db', r) := DeleteDriver(db, company, raw);
      if r.Refused? then db' == db
      else db' == db.(drivers := db'.drivers, vehicles := Unpaired(db.vehicles, company, raw, None))
  {
  }

  /** Devices are only added, or marked as retired. */
  ghost predicate DevicesStay(ts: map<string, Tracker>, ts': map<string, Tracker>) {
    forall t :: t in ts ==> t in ts' && (ts'[t] == ts[t] || ts'[t] == ts[t].(deleted := true))
  }

  lemma CreateTrackerEnds(db: Db, company: string, input: TrackerInput, newId: string)
    ensures var db' := CreateTracker(db, company, input, newId).0;
            db' == db.(trackers := db'.trackers) && DevicesStay(db.trackers, db'.trackers)
  {
  }

  /** An update does nothing, or writes one device over itself. */
  lemma UpdateTrackerEnds(db: Db, company: string, raw: string, input: TrackerInput, staff: bool) returns (id: string, owner: Option<string>)
    ensures var db' := UpdateTracker(db, company, raw, input, staff).0;
      || db' == db
      || (&& id in db.trackers && TrackerApplied(input, db.trackers[id], false).Ok?
          && db' == db.(trackers := db.trackers[id := TrackerWritten(TrackerApplied(input, db.trackers[id], false).value.(companyId := owner))]))
  {
    var found := FindTracker(db, if staff then "" else company, raw);
    if found.Some? && TrackerApplied(input, db.trackers[found.value], false).Ok? {
      var t := TrackerApplied(input, db.trackers[found.value], false).value;
      id, owner := found.value, if staff then Patched(t.companyId, input.companyId) else t.companyId;
      assert t.(companyId := t.companyId) == t;
    } else {
      id, owner := "", None;
    }
  }

  lemma UpdateTrackerFrame(db: Db, company: string, raw: string, input: TrackerInput, staff: bool)
    ensures var db' := UpdateTracker(db, company, raw, input, staff).0; db' == db.(trackers := db'.trackers)
  {
  }

  lemma DeleteTrackerEnds(db: Db, company: string, raw: string)
    ensures var db' := DeleteTracker(db, company, raw).0;
            db' == db.(trackers := db'.trackers) && DevicesStay(db.trackers, db'.trackers)
  {
  }

  lemma {:induction false} FitWritesFrame(db: Db, p: Plan, n: nat)
    requires n <= 5
    ensures var db' := FitWrites(db, p, n); db' == db.(assignments := db'.assignments, vehicles := db'.vehicles)
  {
    if n > 0 { FitWritesFrame(db, p, n - 1); }
  }

  lemma FitFrame(db: Db, company: string, raw: string, input: FitInput, now: Time, how: Conditions)
    ensures var db' := Fit(db, company, raw, input, now, how).0; db' == db.(assignments := db'.assignments, vehicles := db'.vehicles)
  {
    var plan := FitPlan(db, company, raw, input, now);
    if plan.Ok? { FitWritesFrame(db, plan.value, Survivors(how, FitSize(plan.value))); }
  }

  /** Taking a device off does nothing, or some of its writes. */
  lemma UnfitEnds(db: Db, company: string, raw: string, at: Time, how: Conditions)
    ensures var db' := Unfit(db, company, raw, at, how).0;
            db' == db || (FindTracker(db, company, raw).Some?
                          && exists n: nat :: n <= 2 && db' == UnfitWrites(db, FindTracker(db, company, raw).value, at, n))
  {
    var found := FindTracker(db, company, raw);
    if found.Some? {
      var n := Survivors(how, if db.trackers[found.value].kind == Gps then 2 else 1);
      assert n <= 2;
    }
  }

  /** Each operation keeps to its own collections, and none writes a list. */
  lemma StepFrame(db: Db, op: Op)
    ensures var db' := Step(db, op).0;
      && db'.docs == db.docs
      && (!op.OpFit? && !op.OpUnfit? ==> db'.assignments == db.assignments)
      && (!op.OpCreateTracker? && !op.OpUpdateTracker? && !op.OpDeleteTracker? ==> db'.trackers == db.trackers)
      && (!op.OpUpdateTracker? ==> DevicesStay(db.trackers, db'.trackers))
  {
    match op
    case OpCreateVehicle(c, input, newId) => CreateVehicleFrame(db, c, input, newId);
    case OpUpdateVehicle(c, id, input) => UpdateVehicleFrame(db, c, id, input);
    case OpDeleteVehicle(c, id) => DeleteVehicleEnds(db, c, id);
    case OpCreateDriver(c, input, newId, clash) => CreateDriverEnds(db, c, input, newId, clash);
    case OpUpdateDriver(c, id, input, clash) => UpdateDriverEnds(db, c, id, input, clash);
    case OpDeleteDriver(c, id) => DeleteDriverEnds(db, c, id);
    case OpCreateTracker(c, input, newId) => CreateTrackerEnds(db, c, input, newId);
    case OpUpdateTracker(c, id, input, staff) => UpdateTrackerFrame(db, c, id, input, staff);
    case OpDeleteTracker(c, id) => DeleteTrackerEnds(db, c, id);
    case OpFit(c, id, input, now, how) => FitFrame(db, c, id, input, now, how);
    case OpUnfit(c, id, at, how) => UnfitEnds(db, c, id, at, how);
  }
}
