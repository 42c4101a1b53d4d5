/**
 * What the service keeps about its records, rule by rule: which acts keep each rule, exactly.
 * Every rule stands alone, so a run that breaks one says nothing against the others.
 */
module Rules {
  import opened Wrappers
  import opened Text
  import opened Records
  import opened Registry
  import opened RegistryFrames
  import opened Catalog
  import opened CatalogWrites
  import opened CatalogAccepts
  import CatalogCache
  import opened Fitting
  import opened FleetRules

  type Act = CatalogCache.Op

  datatype Rule =
    | Fittings  // one vehicle per device, one device per vehicle and kind, every open fitting between live records
    | Devices   // every device is what it was registered as, and no two live ones are the same
    | Pairs     // one truck per driver, live and of its company
    | Groups    // every group reference is a live group's printed id
    | Homes     // every group reference, in whatever spelling, is a group of the vehicle's own company
    | Twins     // plates and chassis numbers folded, and unique among the live
    | Custody   // what is on a company's truck is the company's
    | Names     // every list entry carries its folded name
    | Lists     // and is as its own write path leaves it
    | Owners    // every customer, item and vehicle group belongs to a company

  ghost predicate Holds(rule: Rule, db: Db) {
    match rule
    case Fittings => RegisterInv(db)
    case Devices => DevicesDistinct(db.trackers)
    case Pairs => PairInv(db)
    case Groups => GroupInv(db)
    case Homes => GroupsAtHome(db)
    case Twins => TwinInv(db)
    case Custody => CustodyInv(db)
    case Names => NamesFolded(db)
    case Lists => ListsStored(db)
    case Owners => OwnersInv(db)
  }

  function After(db: Db, act: Act, env: CatalogCache.Env): Db {
    CatalogCache.PlainStep(db, act, env).0
  }

  // ----- What most operations leave alone -----

  /** Vehicles keep their drivers, groups and twins, but for retirement; drivers and lists stay. */
  ghost predicate ShapeKept(db: Db, db': Db) {
    && DriversKept(db.vehicles, db'.vehicles) && GroupsKept(db.vehicles, db'.vehicles) && TwinsKept(db.vehicles, db'.vehicles)
    && DriversStay(db.drivers, db'.drivers) && db'.docs == db.docs
  }

  /** Only which device a vehicle names may differ. */
  ghost predicate OnlyDeviceDiffers(vs: map<string, Vehicle>, vs': map<string, Vehicle>) {
    vs'.Keys == vs.Keys && forall u :: u in vs ==> vs'[u] == vs[u].(trackerId := vs'[u].trackerId)
  }

  lemma DeviceChangesKeepShape(db: Db, db': Db)
    requires OnlyDeviceDiffers(db.vehicles, db'.vehicles) && db'.drivers == db.drivers && db'.docs == db.docs
    ensures ShapeKept(db, db')
  {
  }

  lemma UnlinkingChangesDevicesOnly(vs: map<string, Vehicle>, tracker: string, except: Option<string>)
    ensures OnlyDeviceDiffers(vs, vs) && OnlyDeviceDiffers(vs, Unlinked(vs, tracker, except))
  {
  }

  lemma WritesKeepShape(db: Db, p: Plan, n: nat)
    requires n <= 5
    ensures ShapeKept(db, FitWrites(db, p, n))
  {
    WritesSpelledOut(db, p, n);
    UnlinkingChangesDevicesOnly(db.vehicles, p.tracker, Some(p.vehicle));
    DeviceChangesKeepShape(db, FitWrites(db, p, n));
  }

  lemma FitKeepsShape(db: Db, company: string, raw: string, input: FitInput, now: Time, how: Conditions)
    ensures ShapeKept(db, Fit(db, company, raw, input, now, how).0)
  {
    var plan := FitPlan(db, company, raw, input, now);
    if plan.Ok? {
      WritesKeepShape(db, plan.value, Survivors(how, FitSize(plan.value)));
    } else {
      UnlinkingChangesDevicesOnly(db.vehicles, "", None);
      DeviceChangesKeepShape(db, db);
    }
  }

  lemma UnfitKeepsShape(db: Db, company: string, raw: string, at: Time, how: Conditions)
    ensures ShapeKept(db, Unfit(db, company, raw, at, how).0)
  {
    var db' := Unfit(db, company, raw, at, how).0;
    UnfitEnds(db, company, raw, at, how);
    UnlinkingChangesDevicesOnly(db.vehicles, "", None);
    if db' != db {
      var t := FindTracker(db, company, raw).value;
      var n: nat :| n <= 2 && db' == UnfitWrites(db, t, at, n);
      UnlinkingChangesDevicesOnly(db.vehicles, t, None);
      assert db'.vehicles == if n <= 1 then db.vehicles else Unlinked(db.vehicles, t, None);
    }
    DeviceChangesKeepShape(db, db');
  }

  /** Whether an operation stores a vehicle or retires a driver. */
  predicate Reshapes(op: Op) {
    op.OpCreateVehicle? || op.OpUpdateVehicle? || op.OpDeleteDriver?
  }

  lemma RetiringKeepsShape(db: Db, company: string, raw: string)
    ensures ShapeKept(db, DeleteVehicle(db, company, raw).0)
  {
    DeleteVehicleEnds(db, company, raw);
  }

  lemma DriversStayingKeepsShape(db: Db, db': Db)
    requires db' == db.(drivers := db'.drivers) && DriversStay(db.drivers, db'.drivers)
    ensures ShapeKept(db, db')
  {
  }

  lemma TrackersKeepShape(db: Db, db': Db)
    requires db' == db.(trackers := db'.trackers)
    ensures ShapeKept(db, db')
  {
  }

  lemma StepKeepsShape(db: Db, op: Op)
    requires !Reshapes(op)
    ensures ShapeKept(db, Step(db, op).0)
  {
    var db' := Step(db, op).0;
    match op
    case OpDeleteVehicle(c, id) => RetiringKeepsShape(db, c, id);
    case OpCreateDriver(c, input, newId, clash) =>
      CreateDriverEnds(db, c, input, newId, clash);
      DriversStayingKeepsShape(db, db');
    case OpUpdateDriver(c, id, input, clash) =>
      UpdateDriverEnds(db, c, id, input, clash);
      DriversStayingKeepsShape(db, db');
    case OpFit(c, id, input, now, how) => FitKeepsShape(db, c, id, input, now, how);
    case OpUnfit(c, id, at, how) => UnfitKeepsShape(db, c, id, at, how);
    case OpCreateTracker(c, input, newId) =>
      CreateTrackerEnds(db, c, input, newId);
      TrackersKeepShape(db, db');
    case OpUpdateTracker(c, id, input, staff) =>
      UpdateTrackerFrame(db, c, id, input, staff);
      TrackersKeepShape(db, db');
    case OpDeleteTracker(c, id) =>
      DeleteTrackerEnds(db, c, id);
      TrackersKeepShape(db, db');
  }

  // ----- One truck per driver -----

  /** The driver is spelled as stored, or on no truck, or not there. */
  ghost predicate FreesTrucks(db: Db, company: string, raw: string) {
    FindDriver(db, company, raw).None? || Canonical(raw) || forall v :: v in db.vehicles ==> db.vehicles[v].currentDriverId != Oid(raw)
  }

  lemma StepKeepsPairsExactly(db: Db, op: Op)
    requires PairInv(db)
    ensures PairInv(Step(db, op).0) <==> (op.OpDeleteDriver? ==> FreesTrucks(db, op.company, op.id))
  {
    match op
    case OpCreateVehicle(c, input, newId) =>
      SavingKeepsPairs(db, c, newId, true, VehicleApplied(input, NewVehicle(c)), input.currentDriverId);
    case OpUpdateVehicle(c, id, input) =>
      var found := FindVehicle(db, c, id);
      if found.Some? { SavingKeepsPairs(db, c, found.value, false, VehicleApplied(input, db.vehicles[found.value]), input.currentDriverId); }
    case OpDeleteDriver(c, id) => if FindDriver(db, c, id).Some? { DeleteDriverKeepsExactly(db, c, id); }
    case _ =>
      StepKeepsShape(db, op);
      KeptDriversKeepPairs(db, Step(db, op).0);
  }

  // ----- Groups -----

  /** What is stored of the vehicle names its group by the printed id, or nothing is stored. */
  ghost predicate NamesGroup(db: Db, op: Op) {
    match op
    case OpCreateVehicle(c, input, newId) =>
      GroupSpelled(input) || !SaveAccepted(db, c, newId, true, VehicleApplied(input, NewVehicle(c)), input.currentDriverId)
    case OpUpdateVehicle(c, id, input) =>
      || GroupSpelled(input) || FindVehicle(db, c, id).None?
      || var found := FindVehicle(db, c, id).value;
         !SaveAccepted(db, c, found, false, VehicleApplied(input, db.vehicles[found]), input.currentDriverId)
    case _ => true
  }

  lemma StepKeepsGroupsExactly(db: Db, op: Op)
    requires GroupInv(db)
    ensures GroupInv(Step(db, op).0) <==> NamesGroup(db, op)
  {
    match op
    case OpCreateVehicle(c, input, newId) =>
      AppliedGroupIsPrinted(input, NewVehicle(c));
      SavingKeepsGroups(db, c, newId, true, VehicleApplied(input, NewVehicle(c)), input.currentDriverId);
    case OpUpdateVehicle(c, id, input) =>
      var found := FindVehicle(db, c, id);
      if found.Some? {
        var v := db.vehicles[found.value];
        assert GroupSound(db, v);
        AppliedGroupIsPrinted(input, v);
        SavingKeepsGroups(db, c, found.value, false, VehicleApplied(input, v), input.currentDriverId);
      }
    case OpDeleteDriver(c, id) =>
      DeleteDriverEnds(db, c, id);
      KeptGroupsKeepInv(db, Step(db, op).0);
    case _ =>
      StepKeepsShape(db, op);
      KeptGroupsKeepInv(db, Step(db, op).0);
  }

  lemma StepKeepsHomes(db: Db, op: Op)
    requires GroupsAtHome(db)
    ensures GroupsAtHome(Step(db, op).0)
  {
    match op
    case OpCreateVehicle(c, input, newId) =>
      SavingKeepsHomes(db, c, newId, true, VehicleApplied(input, NewVehicle(c)), input.currentDriverId);
    case OpUpdateVehicle(c, id, input) =>
      var found := FindVehicle(db, c, id);
      if found.Some? {
        assert GroupAtHome(db, db.vehicles[found.value]);
        SavingKeepsHomes(db, c, found.value, false, VehicleApplied(input, db.vehicles[found.value]), input.currentDriverId);
      }
    case OpDeleteDriver(c, id) =>
      DeleteDriverEnds(db, c, id);
      KeptGroupsStayHome(db, Step(db, op).0);
    case _ =>
      StepKeepsShape(db, op);
      KeptGroupsStayHome(db, Step(db, op).0);
  }

  /** The write retires no group somebody is in by another spelling. */
  ghost predicate FreesVehicles(db: Db, c: Caller, w: Write) {
    w.WDelete? && w.kind == VEHICLE_GROUP && Load(db, w.kind, w.id, c).Ok? ==>
      ObjectId(w.id) == Some(w.id) || forall v :: v in db.vehicles ==> db.vehicles[v].truckGroupId != ObjectId(w.id)
  }

  lemma OtherWritesKeepGroups(db: Db, c: Caller, w: Write)
    requires GroupInv(db) && Written(db, c, w).1.Ok? && !(w.WDelete? && w.kind == VEHICLE_GROUP)
    ensures GroupInv(Written(db, c, w).0)
  {
    var db' := Written(db, c, w).0;
    var ref := WriteTouchesOneEntry(db, c, w);
    assert db'.docs[ref].deleted ==> ref.kind != VEHICLE_GROUP || (ref in db.docs && db.docs[ref].deleted);
    assert ref in db.docs ==> db'.docs[ref].companyId == db.docs[ref].companyId;
    forall company, g | GroupLive(db, company, g) ensures GroupLive(db', company, g) { }
    KeptGroupsKeepInv(db, db');
  }

  /** A list write keeps the group references whole if and only if it frees the vehicles of what it retires. */
  lemma ListWriteKeepsGroups(db: Db, c: Caller, w: Write)
    requires GroupInv(db)
    ensures GroupInv(Written(db, c, w).0) <==> FreesVehicles(db, c, w)
  {
    if Written(db, c, w).1.Refused? {
      RefusedWriteIsNothing(db, c, w);
    } else if w.WDelete? && w.kind == VEHICLE_GROUP {
      DeleteGroupKeepsExactly(db, w.id, c);
    } else {
      OtherWritesKeepGroups(db, c, w);
    }
  }

  lemma ListWriteKeepsHomes(db: Db, c: Caller, w: Write)
    requires GroupsAtHome(db)
    ensures GroupsAtHome(Written(db, c, w).0)
  {
    var db' := Written(db, c, w).0;
    if Written(db, c, w).1.Refused? {
      RefusedWriteIsNothing(db, c, w);
    } else {
      var touched := WriteTouchesOneEntry(db, c, w);
      forall ref | ref in db.docs ensures ref in db'.docs && db'.docs[ref].companyId == db.docs[ref].companyId {
        WriteKeepsOwner(db, c, w, ref);
      }
      KeptGroupsStayHome(db, db');
    }
  }

  // ----- Plates -----

  lemma UpdateKeepsTwins(db: Db, company: string, raw: string, input: VehicleInput)
    requires TwinInv(db)
    ensures TwinInv(UpdateVehicle(db, company, raw, input).0)
  {
    var found := FindVehicle(db, company, raw);
    if found.Some? { SavingKeepsTwins(db, company, found.value, false, VehicleApplied(input, db.vehicles[found.value]), input.currentDriverId); }
  }

  lemma DeleteDriverKeepsTwins(db: Db, company: string, raw: string)
    requires TwinInv(db)
    ensures TwinInv(DeleteDriver(db, company, raw).0)
  {
    DeleteDriverEnds(db, company, raw);
    KeptTwinsKeepInv(db, DeleteDriver(db, company, raw).0);
  }

  lemma StepKeepsTwins(db: Db, op: Op)
    requires TwinInv(db)
    ensures TwinInv(Step(db, op).0)
  {
    match op
    case OpCreateVehicle(c, input, newId) =>
      SavingKeepsTwins(db, c, newId, true, VehicleApplied(input, NewVehicle(c)), input.currentDriverId);
    case OpUpdateVehicle(c, id, input) => UpdateKeepsTwins(db, c, id, input);
    case OpDeleteDriver(c, id) => DeleteDriverKeepsTwins(db, c, id);
    case _ =>
      StepKeepsShape(db, op);
      KeptTwinsKeepInv(db, Step(db, op).0);
  }

  // ----- Devices -----

  lemma RegisteringKeepsDistinct(db: Db, company: string, input: TrackerInput, newId: string)
    requires DevicesDistinct(db.trackers)
    ensures DevicesDistinct(CreateTracker(db, company, input, newId).0.trackers)
  {
    if CreateTracker(db, company, input, newId).1.Ok? { CreateTrackerRegisters(db, company, input, newId); }
  }

  lemma StepKeepsDevices(db: Db, op: Op)
    requires DevicesDistinct(db.trackers)
    ensures DevicesDistinct(Step(db, op).0.trackers)
  {
    match op
    case OpCreateTracker(c, input, newId) => RegisteringKeepsDistinct(db, c, input, newId);
    case OpUpdateTracker(c, id, input, staff) =>
      UpdateKeepsDevices(db, c, id, input, staff);
      SameDevicesStayDistinct(db.trackers, UpdateTracker(db, c, id, input, staff).0.trackers);
    case OpDeleteTracker(c, id) => RetiringKeepsDistinct(db, c, id);
    case _ => StepFrame(db, op);
  }

  lemma FewerLiveStayDistinct(ts: map<string, Tracker>, ts': map<string, Tracker>)
    requires DevicesDistinct(ts) && ts'.Keys == ts.Keys && DevicesStay(ts, ts')
    ensures DevicesDistinct(ts')
  {
    forall t | t in ts' ensures IdentityStored(ts'[t]) { assert IdentityStored(ts[t]); }
  }

  lemma RetiringKeepsDistinct(db: Db, company: string, raw: string)
    requires DevicesDistinct(db.trackers)
    ensures DevicesDistinct(DeleteTracker(db, company, raw).0.trackers)
  {
    DeleteTrackerEnds(db, company, raw);
    FewerLiveStayDistinct(db.trackers, DeleteTracker(db, company, raw).0.trackers);
  }

  // ----- Custody -----

  /** The device of a company's fitting is the company's. */
  ghost predicate InCustody(trackers: map<string, Tracker>, a: Assignment) {
    a.trackerId in trackers && (a.companyId == "" || trackers[a.trackerId].companyId == Some(a.companyId))
  }

  ghost predicate CustodyInv(db: Db) {
    forall i :: 0 <= i < |db.assignments| && Open(db.assignments[i]) ==> InCustody(db.trackers, db.assignments[i])
  }

  /** The owner an accepted staff update leaves the device with. */
  function NewOwner(t: Tracker, input: TrackerInput): Option<string> {
    Patched(t.companyId, input.companyId)
  }

  /** The guards an update passes before it is stored. */
  predicate UpdateAccepted(db: Db, t: string, input: TrackerInput)
    requires t in db.trackers
  {
    && TrackerApplied(input, db.trackers[t], false).Ok?
    && !TrackerClash(db.trackers, t, TrackerWritten(TrackerApplied(input, db.trackers[t], false).value))
  }

  /** A staff update is accepted and hands a fitted device to somebody other than the company that fitted it. */
  ghost predicate MovesFitted(db: Db, raw: string, input: TrackerInput) {
    && FindTracker(db, "", raw).Some?
    && var t := FindTracker(db, "", raw).value;
       && UpdateAccepted(db, t, input)
       && exists i :: 0 <= i < |db.assignments| && Open(db.assignments[i]) && db.assignments[i].trackerId == t
            && db.assignments[i].companyId != "" && NewOwner(db.trackers[t], input) != Some(db.assignments[i].companyId)
  }

  /** Only an accepted staff update changes a device's company, and only that device's. */
  lemma UpdatedOwners(db: Db, company: string, raw: string, input: TrackerInput, staff: bool, t: string)
    requires t in db.trackers
    ensures var ts' := UpdateTracker(db, company, raw, input, staff).0.trackers;
      t in ts' && ts'[t].companyId ==
        if staff && FindTracker(db, "", raw) == Some(t) && UpdateAccepted(db, t, input) then NewOwner(db.trackers[t], input)
        else db.trackers[t].companyId
  {
  }

  /** Devices keep their company. */
  ghost predicate OwnersKept(ts: map<string, Tracker>, ts': map<string, Tracker>) {
    forall t :: t in ts ==> t in ts' && ts'[t].companyId == ts[t].companyId
  }

  lemma KeptOwnersKeepCustody(db: Db, db': Db)
    requires CustodyInv(db) && OwnersKept(db.trackers, db'.trackers)
    requires |db.assignments| <= |db'.assignments| && OnlyCloses(db.assignments, db'.assignments[..|db.assignments|])
    requires forall i :: |db.assignments| <= i < |db'.assignments| ==> InCustody(db'.trackers, db'.assignments[i])
    ensures CustodyInv(db')
  {
    forall i | 0 <= i < |db'.assignments| && Open(db'.assignments[i]) ensures InCustody(db'.trackers, db'.assignments[i]) {
      if i < |db.assignments| { assert db'.assignments[..|db.assignments|][i] == db'.assignments[i]; }
    }
  }

  lemma FitKeepsCustody(db: Db, company: string, raw: string, input: FitInput, now: Time, how: Conditions)
    requires CustodyInv(db)
    ensures CustodyInv(Fit(db, company, raw, input, now, how).0)
  {
    var plan := FitPlan(db, company, raw, input, now);
    if plan.Ok? {
      var p, n := plan.value, Survivors(how, FitSize(plan.value));
      VacatingOnlyCloses(db.assignments, p);
      WritesSpelledOut(db, p, n);
      assert InCustody(db.trackers, p.row);
      KeptOwnersKeepCustody(db, FitWrites(db, p, n));
    }
  }

  lemma UnfitKeepsCustody(db: Db, company: string, raw: string, at: Time, how: Conditions)
    requires CustodyInv(db)
    ensures CustodyInv(Unfit(db, company, raw, at, how).0)
  {
    var db' := Unfit(db, company, raw, at, how).0;
    UnfitEnds(db, company, raw, at, how);
    assert db'.assignments[..|db.assignments|] == db'.assignments;
    KeptOwnersKeepCustody(db, db');
  }

  lemma MovingBreaksCustody(db: Db, company: string, raw: string, input: TrackerInput)
    requires MovesFitted(db, raw, input)
    ensures !CustodyInv(UpdateTracker(db, company, raw, input, true).0)
  {
    var t, db' := FindTracker(db, "", raw).value, UpdateTracker(db, company, raw, input, true).0;
    UpdateTrackerFrame(db, company, raw, input, true);
    UpdatedOwners(db, company, raw, input, true, t);
    var i :| 0 <= i < |db.assignments| && Open(db.assignments[i]) && db.assignments[i].trackerId == t
      && db.assignments[i].companyId != "" && NewOwner(db.trackers[t], input) != Some(db.assignments[i].companyId);
    assert !InCustody(db'.trackers, db'.assignments[i]);
  }

  lemma OtherUpdatesKeepCustody(db: Db, company: string, raw: string, input: TrackerInput, staff: bool)
    requires CustodyInv(db) && !(staff && MovesFitted(db, raw, input))
    ensures CustodyInv(UpdateTracker(db, company, raw, input, staff).0)
  {
    var db' := UpdateTracker(db, company, raw, input, staff).0;
    UpdateTrackerFrame(db, company, raw, input, staff);
    forall i | 0 <= i < |db'.assignments| && Open(db'.assignments[i]) ensures InCustody(db'.trackers, db'.assignments[i]) {
      assert InCustody(db.trackers, db.assignments[i]);
      UpdatedOwners(db, company, raw, input, staff, db.assignments[i].trackerId);
    }
  }

  lemma UpdateKeepsCustodyExactly(db: Db, company: string, raw: string, input: TrackerInput, staff: bool)
    requires CustodyInv(db)
    ensures CustodyInv(UpdateTracker(db, company, raw, input, staff).0) <==> !(staff && MovesFitted(db, raw, input))
  {
    if staff && MovesFitted(db, raw, input) {
      MovingBreaksCustody(db, company, raw, input);
    } else {
      OtherUpdatesKeepCustody(db, company, raw, input, staff);
    }
  }

  ghost predicate KeepsOwner(db: Db, op: Op) {
    op.OpUpdateTracker? ==> !(op.staff && MovesFitted(db, op.id, op.tracker))
  }

  lemma StepKeepsCustodyExactly(db: Db, op: Op)
    requires CustodyInv(db)
    ensures CustodyInv(Step(db, op).0) <==> KeepsOwner(db, op)
  {
    match op
    case OpFit(c, id, input, now, how) => FitKeepsCustody(db, c, id, input, now, how);
    case OpUnfit(c, id, at, how) => UnfitKeepsCustody(db, c, id, at, how);
    case OpUpdateTracker(c, id, input, staff) => UpdateKeepsCustodyExactly(db, c, id, input, staff);
    case _ =>
      StepFrame(db, op);
      var db' := Step(db, op).0;
      assert db'.assignments[..|db.assignments|] == db.assignments;
      KeptOwnersKeepCustody(db, db');
  }

  /** A company can take off what is on its truck exactly when the device is its own. */
  lemma TakesOffExactly(db: Db, i: nat, at: Time)
    requires RegisterInv(db) && i < |db.assignments| && Open(db.assignments[i]) && Canonical(db.assignments[i].trackerId)
    ensures Unfit(db, db.assignments[i].companyId, db.assignments[i].trackerId, at, ALL_WELL).1.Ok? <==>
            InCustody(db.trackers, db.assignments[i])
    ensures !InCustody(db.trackers, db.assignments[i]) ==>
              Unfit(db, db.assignments[i].companyId, db.assignments[i].trackerId, at, ALL_WELL) == (db, Refused(NotFound))
  {
    var a := db.assignments[i];
    assert RowSound(db, a) && a in db.assignments;
  }

  /** And until it is taken off, the company cannot retire the truck. */
  lemma FittedTruckStays(db: Db, i: nat)
    requires RegisterInv(db) && i < |db.assignments| && Open(db.assignments[i]) && Canonical(db.assignments[i].vehicleId)
    ensures DeleteVehicle(db, db.assignments[i].companyId, db.assignments[i].vehicleId) == (db, Refused(Conflict))
  {
    assert RowSound(db, db.assignments[i]) && db.assignments[i] in db.assignments;
  }

  // ----- Every rule -----

  /** Whether an operation of the register spares a rule. */
  ghost predicate SparesStep(rule: Rule, db: Db, op: Op) {
    match rule
    case Fittings => SparesFitted(db, op)
    case Pairs => op.OpDeleteDriver? ==> FreesTrucks(db, op.company, op.id)
    case Groups => NamesGroup(db, op)
    case Custody => KeepsOwner(db, op)
    case _ => true
  }

  /** Whether an act spares a rule; six of the ten are spared by every act. */
  ghost predicate Spares(rule: Rule, db: Db, act: Act) {
    match act
    case Fleet(op) => SparesStep(rule, db, op)
    case Change(c, w) => rule.Groups? ==> FreesVehicles(db, c, w)
    case _ => true
  }

  /** An operation of the register, cut off part-way or not, keeps a rule if and only if it spares it. */
  lemma StepKeepsExactly(rule: Rule, db: Db, op: Op)
    requires Holds(rule, db)
    ensures Holds(rule, Step(db, op).0) <==> SparesStep(rule, db, op)
  {
    match rule
    case Fittings => StepKeepsRegisterExactly(db, op);
    case Devices => StepKeepsDevices(db, op);
    case Pairs => StepKeepsPairsExactly(db, op);
    case Groups => StepKeepsGroupsExactly(db, op);
    case Homes => StepKeepsHomes(db, op);
    case Twins => StepKeepsTwins(db, op);
    case Custody => StepKeepsCustodyExactly(db, op);
    case Names => StepFrame(db, op);
    case Lists => StepFrame(db, op);
    case Owners => StepFrame(db, op);
  }

  lemma UngroupingKeepsShape(db: Db, db': Db, group: string)
    requires db'.vehicles == db.vehicles || db'.vehicles == Ungrouped(db.vehicles, group)
    requires db'.trackers == db.trackers && db'.assignments == db.assignments
    ensures DriversKept(db.vehicles, db'.vehicles) && TwinsKept(db.vehicles, db'.vehicles) && VehiclesKept(db, db')
  {
  }

  lemma ListWriteKeepsShape(db: Db, c: Caller, w: Write)
    ensures var db' := Written(db, c, w).0;
      && db'.trackers == db.trackers && db'.assignments == db.assignments && db'.drivers == db.drivers
      && DriversKept(db.vehicles, db'.vehicles) && TwinsKept(db.vehicles, db'.vehicles) && VehiclesKept(db, db')
  {
    if Written(db, c, w).1.Refused? {
      RefusedWriteIsNothing(db, c, w);
    } else {
      var ref := WriteTouchesOneEntry(db, c, w);
    }
    UngroupingKeepsShape(db, Written(db, c, w).0, if w.WDelete? then w.id else "");
  }

  lemma ListWriteKeepsRegister(db: Db, c: Caller, w: Write)
    requires RegisterInv(db)
    ensures RegisterInv(Written(db, c, w).0)
    ensures forall t, v :: Agree(db, t, v) ==> Agree(Written(db, c, w).0, t, v)
  {
    ListWriteKeepsShape(db, c, w);
    KeptVehiclesKeepRegister(db, Written(db, c, w).0);
  }

  lemma WriteKeepsExactly(rule: Rule, db: Db, c: Caller, w: Write)
    requires Holds(rule, db)
    ensures Holds(rule, Written(db, c, w).0) <==> (rule.Groups? ==> FreesVehicles(db, c, w))
  {
    var db' := Written(db, c, w).0;
    match rule
    case Fittings => ListWriteKeepsRegister(db, c, w);
    case Groups => ListWriteKeepsGroups(db, c, w);
    case Homes => ListWriteKeepsHomes(db, c, w);
    case Names => WriteKeepsStored(db, c, w);
    case Lists => WriteKeepsStored(db, c, w);
    case Owners => WriteKeepsOwners(db, c, w);
    case Devices => ListWriteKeepsShape(db, c, w);
    case Custody => ListWriteKeepsShape(db, c, w);
    case Pairs =>
      ListWriteKeepsShape(db, c, w);
      KeptDriversKeepPairs(db, db');
    case Twins =>
      ListWriteKeepsShape(db, c, w);
      KeptTwinsKeepInv(db, db');
  }

  /** An act keeps a rule if and only if it spares it, whatever has become of the other rules. */
  lemma ActKeepsExactly(rule: Rule, db: Db, act: Act, env: CatalogCache.Env)
    requires Holds(rule, db)
    ensures Holds(rule, After(db, act, env)) <==> Spares(rule, db, act)
  {
    match act
    case Fleet(op) => StepKeepsExactly(rule, db, op);
    case Change(c, w) => WriteKeepsExactly(rule, db, c, w);
    case _ =>
  }
}
