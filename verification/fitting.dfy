/**
 * What the fitting register keeps: one device per vehicle and kind, one vehicle per device,
 * and the vehicle's copy of its GPS device in step with the open assignment, through every
 * run and after every failure part-way.
 */
module Fitting {
  import opened Wrappers
  import opened Text
  import opened Normalise
  import opened Records
  import opened Registry
  import opened RegistryFrames

  // ----- The invariant -----

  ghost predicate OneVehiclePerDevice(rows: seq<Assignment>) {
    forall i, j :: 0 <= i < j < |rows| && Open(rows[i]) && Open(rows[j]) ==> rows[i].trackerId != rows[j].trackerId
  }

  ghost predicate OneDevicePerSlot(rows: seq<Assignment>) {
    forall i, j :: 0 <= i < j < |rows| && Open(rows[i]) && Open(rows[j]) ==>
      rows[i].vehicleId != rows[j].vehicleId || rows[i].kind != rows[j].kind
  }

  /** A row names a known device and vehicle, copies the device's identity and the vehicle's
      company, and while it is open both are live. */
  ghost predicate RowSound(db: Db, a: Assignment) {
    && a.trackerId in db.trackers && a.vehicleId in db.vehicles
    && var t := db.trackers[a.trackerId];
       var v := db.vehicles[a.vehicleId];
       && a.kind == t.kind && a.deviceId == t.deviceId && a.imei == t.imei
       && a.companyId == v.companyId
       && (Open(a) ==> !t.deleted && !v.deleted)
  }

  /** Every device is what its write path made it. */
  ghost predicate IdentitiesStored(trackers: map<string, Tracker>) {
    forall t :: t in trackers ==> IdentityStored(trackers[t])
  }

  /** Stored identities, each held by one live device. */
  ghost predicate DevicesDistinct(trackers: map<string, Tracker>) {
    && IdentitiesStored(trackers)
    && (forall t, u :: t in trackers && u in trackers && t != u && !trackers[t].deleted && !trackers[u].deleted ==>
          trackers[t].kind != trackers[u].kind || trackers[t].deviceId != trackers[u].deviceId)
  }

  ghost predicate RegisterInv(db: Db) {
    && OneVehiclePerDevice(db.assignments)
    && OneDevicePerSlot(db.assignments)
    && (forall i :: 0 <= i < |db.assignments| ==> RowSound(db, db.assignments[i]))
    && DevicesDistinct(db.trackers)
  }

  predicate Mounts(a: Assignment, t: string, v: string) {
    Open(a) && a.kind == Gps && a.trackerId == t && a.vehicleId == v
  }

  ghost predicate OnBoard(rows: seq<Assignment>, t: string, v: string) {
    exists i :: 0 <= i < |rows| && Mounts(rows[i], t, v)
  }

  /** The vehicle names the device exactly when an open GPS assignment says so. */
  ghost predicate Agree(db: Db, t: string, v: string) {
    v in db.vehicles ==> (db.vehicles[v].trackerId == Some(t) <==> OnBoard(db.assignments, t, v))
  }

  ghost predicate FullAgreement(db: Db) {
    forall t, v :: Agree(db, t, v)
  }

  // ----- Closing rows -----

  /** Every row is as it was, or was open and is now closed. */
  ghost predicate OnlyCloses(rows: seq<Assignment>, rows': seq<Assignment>) {
    && |rows| == |rows'|
    && forall i :: 0 <= i < |rows| ==>
         rows'[i] == rows[i] || (Open(rows[i]) && rows'[i] == rows[i].(unfittedAt := rows'[i].unfittedAt) && !Open(rows'[i]))
  }

  lemma ClosingKeepsRegister(db: Db, rows': seq<Assignment>)
    requires RegisterInv(db) && OnlyCloses(db.assignments, rows')
    ensures RegisterInv(db.(assignments := rows'))
  {
    var db' := db.(assignments := rows');
    forall i | 0 <= i < |rows'| ensures RowSound(db', rows'[i]) {
      assert RowSound(db, db.assignments[i]);
    }
  }

  /** Changing only which device vehicles name keeps the register. */
  lemma RenamingKeepsRegister(db: Db, vehicles': map<string, Vehicle>)
    requires RegisterInv(db) && vehicles'.Keys == db.vehicles.Keys
    requires forall u :: u in vehicles' ==> vehicles'[u].companyId == db.vehicles[u].companyId && vehicles'[u].deleted == db.vehicles[u].deleted
    ensures RegisterInv(db.(vehicles := vehicles'))
  {
    var db' := db.(vehicles := vehicles');
    forall i | 0 <= i < |db.assignments| ensures RowSound(db', db.assignments[i]) {
      assert RowSound(db, db.assignments[i]);
    }
  }

  // ----- One fitting -----

  /** What a plan promises about the database it was drawn up from. */
  ghost predicate PlanFor(db: Db, p: Plan) {
    && p.tracker in db.trackers && !db.trackers[p.tracker].deleted
    && p.vehicle in db.vehicles && !db.vehicles[p.vehicle].deleted
    && p.kindIds == LiveOfKind(db, p.row.kind)
    && p.row.trackerId == p.tracker && p.row.vehicleId == p.vehicle && Open(p.row)
    && RowSound(db, p.row)
  }

  lemma PlanIsSound(db: Db, company: string, rawTracker: string, input: FitInput, now: Time)
    requires RegisterInv(db) && FitPlan(db, company, rawTracker, input, now).Ok?
    ensures PlanFor(db, FitPlan(db, company, rawTracker, input, now).value)
    ensures FitPlan(db, company, rawTracker, input, now).value.row.fittedAt == if input.fittedAt.Some? then input.fittedAt.value else now
  {
    var t := FindTracker(db, company, rawTracker).value;
    var device := db.trackers[t];
    var v := FindVehicle(db, company, input.vehicleId).value;
    var at := if input.fittedAt.Some? then input.fittedAt.value else now;
    CopyIsFaithful(device, Assignment(company, t, v, device.kind, device.deviceId, device.imei, at, None));
  }

  /** The rows once the device has left its vehicle and the vehicle's slot is empty. */
  function Vacated(rows: seq<Assignment>, p: Plan): seq<Assignment> {
    CloseSlot(CloseDevice(rows, p.tracker, p.row.fittedAt), p.vehicle, p.kindIds, p.row.fittedAt)
  }

  /** The writes of a fitting, spelled out. */
  lemma {:induction false} WritesSpelledOut(db: Db, p: Plan, n: nat)
    requires n <= 5
    ensures var after := FitWrites(db, p, n);
      && after.trackers == db.trackers && after.drivers == db.drivers && after.docs == db.docs
      && after.assignments == (if n == 0 then db.assignments
                               else if n == 1 then CloseDevice(db.assignments, p.tracker, p.row.fittedAt)
                               else if n == 2 then Vacated(db.assignments, p)
                               else Vacated(db.assignments, p) + [p.row])
      && after.vehicles == (if n <= 3 then db.vehicles
                            else if n == 4 then Unlinked(db.vehicles, p.tracker, Some(p.vehicle))
                            else Linked(Unlinked(db.vehicles, p.tracker, Some(p.vehicle)), p.vehicle, p.tracker))
  {
    if n > 0 { WritesSpelledOut(db, p, n - 1); }
  }

  lemma VacatingOnlyCloses(rows: seq<Assignment>, p: Plan)
    ensures OnlyCloses(rows, CloseDevice(rows, p.tracker, p.row.fittedAt)) && OnlyCloses(rows, Vacated(rows, p))
  {
  }

  /** After the two closings neither the device nor the vehicle's slot is taken. */
  lemma VacatedIsFree(db: Db, p: Plan)
    requires RegisterInv(db) && PlanFor(db, p)
    ensures OnlyCloses(db.assignments, Vacated(db.assignments, p))
    ensures forall i :: 0 <= i < |db.assignments| && Open(Vacated(db.assignments, p)[i]) ==>
      var a := Vacated(db.assignments, p)[i];
      a.trackerId != p.tracker && (a.vehicleId != p.vehicle || a.kind != p.row.kind)
  {
    var rows := db.assignments;
    forall i | 0 <= i < |rows| && Open(Vacated(rows, p)[i])
      ensures rows[i].trackerId != p.tracker && (rows[i].vehicleId != p.vehicle || rows[i].kind != p.row.kind)
    {
      assert RowSound(db, rows[i]);
    }
  }

  lemma InsertKeepsRegister(db: Db, p: Plan)
    requires RegisterInv(db) && PlanFor(db, p)
    ensures RegisterInv(db.(assignments := Vacated(db.assignments, p) + [p.row]))
  {
    VacatedIsFree(db, p);
    var rows := Vacated(db.assignments, p);
    ClosingKeepsRegister(db, rows);
    var fitted := db.(assignments := rows + [p.row]);
    forall i | 0 <= i < |fitted.assignments| ensures RowSound(fitted, fitted.assignments[i]) {
      if i < |rows| { assert RowSound(db.(assignments := rows), rows[i]); }
    }
  }

  lemma ClosingsKeepRegister(db: Db, p: Plan)
    requires RegisterInv(db) && PlanFor(db, p)
    ensures RegisterInv(db.(assignments := CloseDevice(db.assignments, p.tracker, p.row.fittedAt)))
    ensures RegisterInv(db.(assignments := Vacated(db.assignments, p)))
  {
    VacatedIsFree(db, p);
    ClosingKeepsRegister(db, CloseDevice(db.assignments, p.tracker, p.row.fittedAt));
    ClosingKeepsRegister(db, Vacated(db.assignments, p));
  }

  /** Safety of a crash: whatever prefix of the writes was made, the register invariant holds. */
  lemma {:induction false} FitPrefixKeepsRegister(db: Db, p: Plan, n: nat)
    requires RegisterInv(db) && PlanFor(db, p) && n <= 5
    ensures RegisterInv(FitWrites(db, p, n))
  {
    WritesSpelledOut(db, p, n);
    var after := FitWrites(db, p, n);
    var closed := db.(assignments := after.assignments);
    if n < 3 {
      ClosingsKeepRegister(db, p);
      assert after == closed;
    } else {
      InsertKeepsRegister(db, p);
      assert after == closed.(vehicles := after.vehicles);
      RenamingKeepsRegister(closed, after.vehicles);
    }
  }

  /** The closings touch no row of another device on another vehicle. */
  lemma VacatingLeavesOthersAlone(db: Db, p: Plan, i: nat, t: string, v: string)
    requires RegisterInv(db) && PlanFor(db, p) && i < |db.assignments|
    requires p.row.kind == Gps ==> t != p.tracker && v != p.vehicle
    ensures Mounts(CloseDevice(db.assignments, p.tracker, p.row.fittedAt)[i], t, v) <==> Mounts(db.assignments[i], t, v)
    ensures Mounts(Vacated(db.assignments, p)[i], t, v) <==> Mounts(db.assignments[i], t, v)
  {
    assert RowSound(db, db.assignments[i]);
  }

  lemma SameMounts(rows: seq<Assignment>, rows': seq<Assignment>, t: string, v: string)
    requires |rows| <= |rows'|
    requires forall i :: 0 <= i < |rows| ==> (Mounts(rows'[i], t, v) <==> Mounts(rows[i], t, v))
    requires forall i :: |rows| <= i < |rows'| ==> !Mounts(rows'[i], t, v)
    ensures OnBoard(rows', t, v) <==> OnBoard(rows, t, v)
  {
    if OnBoard(rows, t, v) {
      var i :| 0 <= i < |rows| && Mounts(rows[i], t, v);
      assert Mounts(rows'[i], t, v);
    }
  }

  /** A fitting, finished or not, says nothing new about other devices on other vehicles. */
  lemma FitLeavesOthersAlone(db: Db, p: Plan, n: nat, t: string, v: string)
    requires RegisterInv(db) && PlanFor(db, p) && n <= FitSize(p)
    requires p.row.kind == Gps ==> t != p.tracker && v != p.vehicle
    ensures Agree(FitWrites(db, p, n), t, v) <==> Agree(db, t, v)
  {
    WritesSpelledOut(db, p, n);
    var rows, rows' := db.assignments, FitWrites(db, p, n).assignments;
    forall i | 0 <= i < |rows| ensures Mounts(rows'[i], t, v) <==> Mounts(rows[i], t, v) {
      VacatingLeavesOthersAlone(db, p, i, t, v);
    }
    SameMounts(rows, rows', t, v);
  }

  /** A finished GPS fitting leaves its device and its vehicle in agreement with everything. */
  lemma FitSettles(db: Db, p: Plan, t: string, v: string)
    requires RegisterInv(db) && PlanFor(db, p) && p.row.kind == Gps
    requires t == p.tracker || v == p.vehicle
    ensures Agree(FitWrites(db, p, 5), t, v)
  {
    WritesSpelledOut(db, p, 5);
    VacatedIsFree(db, p);
    var rows' := FitWrites(db, p, 5).assignments;
    assert rows'[|db.assignments|] == p.row;
    assert t == p.tracker && v == p.vehicle ==> Mounts(rows'[|db.assignments|], t, v);
    forall i | 0 <= i < |db.assignments| ensures !Mounts(rows'[i], t, v) {
      assert rows'[i] == Vacated(db.assignments, p)[i];
    }
  }

  /**
   * What a finished GPS fitting repairs: full agreement afterwards, if and only if every
   * device and vehicle that disagreed before involved the device fitted or its vehicle.
   */
  lemma FitRepairsExactly(db: Db, p: Plan)
    requires RegisterInv(db) && PlanFor(db, p) && p.row.kind == Gps
    ensures FullAgreement(FitWrites(db, p, 5)) <==>
            forall t, v :: !Agree(db, t, v) ==> t == p.tracker || v == p.vehicle
  {
    forall t, v
      ensures Agree(FitWrites(db, p, 5), t, v) <==> (t == p.tracker || v == p.vehicle || Agree(db, t, v))
    {
      if t == p.tracker || v == p.vehicle { FitSettles(db, p, t, v); } else { FitLeavesOthersAlone(db, p, 5, t, v); }
    }
  }

  // ----- Taking a device off -----

  lemma UnfitKeepsRegister(db: Db, tracker: string, at: Time, n: nat)
    requires RegisterInv(db)
    ensures RegisterInv(UnfitWrites(db, tracker, at, n))
  {
    var closed := db.(assignments := CloseDevice(db.assignments, tracker, at));
    ClosingKeepsRegister(db, closed.assignments);
    RenamingKeepsRegister(closed, Unlinked(db.vehicles, tracker, None));
  }

  /** Taking a GPS device off settles everything about it; taking off a dashcam changes no agreement. */
  lemma UnfitSettles(db: Db, tracker: string, at: Time, t: string, v: string)
    requires RegisterInv(db) && tracker in db.trackers
    ensures var gps := db.trackers[tracker].kind == Gps;
            Agree(UnfitWrites(db, tracker, at, if gps then 2 else 1), t, v) <==> (Agree(db, t, v) || (gps && t == tracker))
  {
    var rows := db.assignments;
    var rows' := CloseDevice(rows, tracker, at);
    var gps := db.trackers[tracker].kind == Gps;
    forall i | 0 <= i < |rows| ensures Mounts(rows'[i], t, v) <==> Mounts(rows[i], t, v) && !(gps && t == tracker) {
      assert RowSound(db, rows[i]);
    }
  }

  /** Cut off between its writes, an unfitting has closed what the device was on and nothing else. */
  lemma HalfUnfit(db: Db, company: string, raw: string, at: Time)
    requires Unfit(db, company, raw, at, ALL_WELL).1.Ok? && db.trackers[FindTracker(db, company, raw).value].kind == Gps
    ensures Unfit(db, company, raw, at, Conditions(false, Some(1))).0 ==
            db.(assignments := CloseDevice(db.assignments, FindTracker(db, company, raw).value, at))
    ensures exists a :: a in db.assignments && a.trackerId == FindTracker(db, company, raw).value && Open(a)
  {
  }

  lemma ClosedIsNotOpen(rows: seq<Assignment>, tracker: string, at: Time)
    ensures !exists a :: a in CloseDevice(rows, tracker, at) && a.trackerId == tracker && Open(a)
  {
  }

  /** Then the vehicle names a device that is on no vehicle. */
  lemma HalfUnfitDisagrees(db: Db, t: string, at: Time, a: Assignment)
    requires RegisterInv(db) && FullAgreement(db) && t in db.trackers && db.trackers[t].kind == Gps
    requires a in db.assignments && a.trackerId == t && Open(a)
    ensures !Agree(db.(assignments := CloseDevice(db.assignments, t, at)), t, a.vehicleId)
  {
    var i :| 0 <= i < |db.assignments| && db.assignments[i] == a;
    assert RowSound(db, db.assignments[i]);
    assert Mounts(db.assignments[i], t, a.vehicleId) && Agree(db, t, a.vehicleId);
  }

  /**
   * An unfitting cut off between its two writes cannot be finished by asking again: the device
   * is no longer fitted, so the retry is refused and the vehicle goes on naming it.
   */
  lemma UnfitRetryIsRefused(db: Db, company: string, raw: string, first: Time, second: Time, how: Conditions)
    requires RegisterInv(db) && FullAgreement(db)
    requires Unfit(db, company, raw, first, ALL_WELL).1.Ok? && db.trackers[FindTracker(db, company, raw).value].kind == Gps
    requires how.lostAfter != Some(0)
    ensures var cut := Unfit(db, company, raw, first, Conditions(false, Some(1))).0;
            && Unfit(cut, company, raw, second, how) == (cut, Refused(Conflict))
            && exists v :: !Agree(cut, FindTracker(db, company, raw).value, v)
  {
    var t := FindTracker(db, company, raw).value;
    HalfUnfit(db, company, raw, first);
    ClosedIsNotOpen(db.assignments, t, first);
    var a :| a in db.assignments && a.trackerId == t && Open(a);
    HalfUnfitDisagrees(db, t, first, a);
  }

  /** Whether an unfitting run this way stops between its two writes and keeps the first. */
  predicate StopsHalfway(kind: DeviceKind, how: Conditions) {
    kind == Gps && !how.transactional && how.lostAfter == Some(1)
  }

  /** An unfitting not stopped halfway keeps what agrees. */
  lemma UnfitKeepsFullAgreement(db: Db, company: string, raw: string, at: Time, how: Conditions)
    requires RegisterInv(db) && FullAgreement(db) && FindTracker(db, company, raw).Some?
    requires !StopsHalfway(db.trackers[FindTracker(db, company, raw).value].kind, how)
    ensures RegisterInv(Unfit(db, company, raw, at, how).0) && FullAgreement(Unfit(db, company, raw, at, how).0)
  {
    var t := FindTracker(db, company, raw).value;
    var size := if db.trackers[t].kind == Gps then 2 else 1;
    UnfitKeepsRegister(db, t, at, size);
    forall u, v ensures Agree(UnfitWrites(db, t, at, size), u, v) { UnfitSettles(db, t, at, u, v); }
  }

  lemma UnfitFindsAgain(db: Db, company: string, raw: string, at: Time, how: Conditions)
    ensures var db' := Unfit(db, company, raw, at, how).0;
            db'.trackers == db.trackers && FindTracker(db', company, raw) == FindTracker(db, company, raw)
  {
    UnfitEnds(db, company, raw, at, how);
  }

  /**
   * Asking twice settles an unfitting exactly when the first was not stopped halfway: for a
   * dashcam, in a transaction, or with no or both writes made, a second request leaves every
   * vehicle in agreement; otherwise the second is refused.
   */
  lemma UnfitTwiceSettlesExactly(db: Db, company: string, raw: string, first: Time, how: Conditions, second: Time)
    requires RegisterInv(db) && FullAgreement(db) && Unfit(db, company, raw, first, ALL_WELL).1.Ok?
    ensures FullAgreement(Unfit(Unfit(db, company, raw, first, how).0, company, raw, second, ALL_WELL).0) <==>
            !StopsHalfway(db.trackers[FindTracker(db, company, raw).value].kind, how)
  {
    var kind := db.trackers[FindTracker(db, company, raw).value].kind;
    UnfitFindsAgain(db, company, raw, first, how);
    if StopsHalfway(kind, how) {
      assert how == Conditions(false, Some(1));
      UnfitRetryIsRefused(db, company, raw, first, second, ALL_WELL);
    } else {
      UnfitKeepsFullAgreement(db, company, raw, first, how);
      UnfitKeepsFullAgreement(Unfit(db, company, raw, first, how).0, company, raw, second, ALL_WELL);
    }
  }

  // ----- The other operations -----

  /** Rows, devices and vehicles change together only in ways that keep every row sound. */
  lemma SameRowsKeepRegister(db: Db, db': Db)
    requires RegisterInv(db) && db'.assignments == db.assignments && DevicesDistinct(db'.trackers)
    requires forall t :: t in db.trackers ==>
      && t in db'.trackers
      && db'.trackers[t].kind == db.trackers[t].kind && db'.trackers[t].deviceId == db.trackers[t].deviceId
      && db'.trackers[t].imei == db.trackers[t].imei
    requires forall v :: v in db.vehicles ==> v in db'.vehicles && db'.vehicles[v].companyId == db.vehicles[v].companyId
    requires forall i :: 0 <= i < |db.assignments| && Open(db.assignments[i]) ==>
      var a := db.assignments[i];
      && (a.trackerId in db'.trackers && db'.trackers[a.trackerId].deleted ==> a.trackerId in db.trackers && db.trackers[a.trackerId].deleted)
      && (a.vehicleId in db'.vehicles && db'.vehicles[a.vehicleId].deleted ==> a.vehicleId in db.vehicles && db.vehicles[a.vehicleId].deleted)
    ensures RegisterInv(db')
  {
    forall i | 0 <= i < |db'.assignments| ensures RowSound(db', db'.assignments[i]) {
      assert RowSound(db, db.assignments[i]);
    }
  }

  /** Vehicles keep their company, their device and whether they are live. */
  ghost predicate VehiclesKept(db: Db, db': Db) {
    && db'.trackers == db.trackers && db'.assignments == db.assignments
    && forall v :: v in db.vehicles ==>
         && v in db'.vehicles
         && db'.vehicles[v].companyId == db.vehicles[v].companyId
         && db'.vehicles[v].trackerId == db.vehicles[v].trackerId
         && (db'.vehicles[v].deleted ==> db.vehicles[v].deleted || forall a :: a in db.assignments && Open(a) ==> a.vehicleId != v)
  }

  lemma KeptVehiclesKeepRegister(db: Db, db': Db)
    requires RegisterInv(db) && VehiclesKept(db, db')
    requires forall v :: v in db'.vehicles && v !in db.vehicles ==> db'.vehicles[v].trackerId == None
    ensures RegisterInv(db')
    ensures forall t, v :: Agree(db, t, v) ==> Agree(db', t, v)
  {
    SameRowsKeepRegister(db, db');
    forall t, v | Agree(db, t, v) && v !in db.vehicles ensures Agree(db', t, v) {
      forall i | 0 <= i < |db.assignments| ensures !Mounts(db.assignments[i], t, v) {
        assert RowSound(db, db.assignments[i]);
      }
    }
  }

  /**
   * A device is registered as what the caller said it is: the kind given, GPS by default, and
   * the id folded for that kind; a GPS id has fifteen digits, and nobody else has the device.
   */
  ghost predicate DeviceRegistered(t: Tracker, others: map<string, Tracker>, company: string, input: TrackerInput) {
    var given := if input.deviceId.Some? then input.deviceId else input.imei;
    && given.Some? && !t.deleted && t.companyId == (if company == "" then None else Some(company)) && IdentityStored(t)
    && (if input.kind.None? || Lower(Trim(input.kind.value)) == "gps" then t.kind == Gps && t.deviceId == Imei(given.value)
        else Lower(Trim(input.kind.value)) == "dashcam" && t.kind == Dashcam && t.deviceId == Trim(given.value))
    && forall u :: u in others && !others[u].deleted ==> others[u].kind != t.kind || others[u].deviceId != t.deviceId
  }

  lemma CreateTrackerRegisters(db: Db, company: string, input: TrackerInput, newId: string)
    requires CreateTracker(db, company, input, newId).1.Ok?
    ensures var (db', r) := CreateTracker(db, company, input, newId);
      && r == Ok(newId) && newId in db'.trackers && newId !in db.trackers
      && db' == db.(trackers := db.trackers[newId := db'.trackers[newId]])
      && DeviceRegistered(db'.trackers[newId], db.trackers, company, input)
  {
    var given := if input.deviceId.Some? then input.deviceId else input.imei;
    if given.Some? {
      TrimIdempotent(given.value);
      TwinsIgnoreTrim(given.value);
      FoldingIsIdempotent(given.value);
    }
    assert Imei("") == "" && Trim("") == "";
    assert !TrackerClash(db.trackers, newId, CreateTracker(db, company, input, newId).0.trackers[newId]);
  }

  /** An update never changes what a device is. */
  lemma UpdateKeepsIdentity(t: Tracker, input: TrackerInput, companyId: Option<string>)
    requires IdentityStored(t) && TrackerApplied(input, t, false).Ok?
    ensures var w := TrackerWritten(TrackerApplied(input, t, false).value.(companyId := companyId));
            w.kind == t.kind && w.deviceId == t.deviceId && w.imei == t.imei && w.deleted == t.deleted && IdentityStored(w)
  {
    var device := if input.deviceId.Some? then input.deviceId else input.imei;
    if device.Some? {
      TrimIdempotent(device.value);
      FilterKeepsOnly(IsDigit, Trim(device.value));
    }
  }

  /** Devices are the same ones, whatever else is recorded of them. */
  ghost predicate SameDevices(ts: map<string, Tracker>, ts': map<string, Tracker>) {
    && ts'.Keys == ts.Keys
    && forall t :: t in ts ==>
         ts'[t].kind == ts[t].kind && ts'[t].deviceId == ts[t].deviceId && ts'[t].imei == ts[t].imei && ts'[t].deleted == ts[t].deleted
  }

  lemma UpdateKeepsDevices(db: Db, company: string, raw: string, input: TrackerInput, staff: bool)
    requires IdentitiesStored(db.trackers)
    ensures SameDevices(db.trackers, UpdateTracker(db, company, raw, input, staff).0.trackers)
    ensures var db' := UpdateTracker(db, company, raw, input, staff).0; db' == db.(trackers := db'.trackers)
  {
    var id, owner := UpdateTrackerEnds(db, company, raw, input, staff);
    if UpdateTracker(db, company, raw, input, staff).0 != db {
      UpdateKeepsIdentity(db.trackers[id], input, owner);
      RewritingKeepsDevices(db.trackers, id, TrackerWritten(TrackerApplied(input, db.trackers[id], false).value.(companyId := owner)));
    }
  }

  lemma RewritingKeepsDevices(ts: map<string, Tracker>, id: string, w: Tracker)
    requires id in ts
    requires w.kind == ts[id].kind && w.deviceId == ts[id].deviceId && w.imei == ts[id].imei && w.deleted == ts[id].deleted
    ensures SameDevices(ts, ts[id := w])
  {
  }

  lemma SameDevicesStayDistinct(ts: map<string, Tracker>, ts': map<string, Tracker>)
    requires DevicesDistinct(ts) && SameDevices(ts, ts')
    ensures DevicesDistinct(ts')
  {
    forall t | t in ts' ensures IdentityStored(ts'[t]) { assert IdentityStored(ts[t]); }
  }

  lemma SameDevicesKeepRegister(db: Db, ts': map<string, Tracker>)
    requires RegisterInv(db) && SameDevices(db.trackers, ts')
    ensures RegisterInv(db.(trackers := ts'))
  {
    SameDevicesStayDistinct(db.trackers, ts');
    SameRowsKeepRegister(db, db.(trackers := ts'));
  }

  lemma UpdateTrackerKeeps(db: Db, company: string, raw: string, input: TrackerInput, staff: bool)
    requires RegisterInv(db)
    ensures RegisterInv(UpdateTracker(db, company, raw, input, staff).0)
  {
    UpdateKeepsDevices(db, company, raw, input, staff);
    SameDevicesKeepRegister(db, UpdateTracker(db, company, raw, input, staff).0.trackers);
  }

  lemma AddingKeepsRegister(db: Db, id: string, t: Tracker)
    requires RegisterInv(db) && id !in db.trackers && IdentityStored(t)
    requires forall u :: u in db.trackers && !db.trackers[u].deleted ==> db.trackers[u].kind != t.kind || db.trackers[u].deviceId != t.deviceId
    ensures RegisterInv(db.(trackers := db.trackers[id := t]))
  {
    SameRowsKeepRegister(db, db.(trackers := db.trackers[id := t]));
  }

  lemma CreateTrackerKeeps(db: Db, company: string, input: TrackerInput, newId: string)
    requires RegisterInv(db)
    ensures RegisterInv(CreateTracker(db, company, input, newId).0)
  {
    var (db', r) := CreateTracker(db, company, input, newId);
    if r.Ok? {
      CreateTrackerRegisters(db, company, input, newId);
      AddingKeepsRegister(db, newId, db'.trackers[newId]);
    }
  }

  /** The rows that still name a device as fitted. */
  ghost predicate DeviceFitted(db: Db, id: string) {
    exists i :: 0 <= i < |db.assignments| && Open(db.assignments[i]) && db.assignments[i].trackerId == id
  }

  ghost predicate VehicleFitted(db: Db, id: string) {
    exists i :: 0 <= i < |db.assignments| && Open(db.assignments[i]) && db.assignments[i].vehicleId == id
  }

  /**
   * Retiring a device counts its open fittings by the id as the caller spelled it. The
   * register survives exactly when that spelling is the stored one or nothing was fitted.
   */
  lemma DeleteTrackerKeepsExactly(db: Db, company: string, raw: string)
    requires RegisterInv(db) && FindTracker(db, company, raw).Some?
    ensures RegisterInv(DeleteTracker(db, company, raw).0) <==>
            (Canonical(raw) || DeviceFitted(db, raw) || !DeviceFitted(db, Oid(raw).value))
  {
    var id := Oid(raw).value;
    var (db', r) := DeleteTracker(db, company, raw);
    if r.Ok? {
      if DeviceFitted(db, id) {
        var i :| 0 <= i < |db.assignments| && Open(db.assignments[i]) && db.assignments[i].trackerId == id;
        assert db.assignments[i] in db.assignments;
        assert !RowSound(db', db'.assignments[i]);
      } else {
        SameRowsKeepRegister(db, db');
      }
    }
  }

  /** Retiring a vehicle has the same gap for a dashcam; a GPS device is seen on the vehicle itself. */
  lemma DeleteVehicleKeepsExactly(db: Db, company: string, raw: string)
    requires RegisterInv(db) && FindVehicle(db, company, raw).Some?
    ensures RegisterInv(DeleteVehicle(db, company, raw).0) <==>
            (|| Canonical(raw) || VehicleFitted(db, raw) || !VehicleFitted(db, Oid(raw).value)
             || db.vehicles[Oid(raw).value].trackerId.Some?)
  {
    var id := Oid(raw).value;
    var (db', r) := DeleteVehicle(db, company, raw);
    if r.Ok? {
      if VehicleFitted(db, id) {
        var i :| 0 <= i < |db.assignments| && Open(db.assignments[i]) && db.assignments[i].vehicleId == id;
        assert db.assignments[i] in db.assignments;
        assert !RowSound(db', db'.assignments[i]);
      } else {
        SameRowsKeepRegister(db, db');
      }
    }
  }

  lemma PairingKeeps(db: Db, company: string, self: Option<string>, v: Vehicle, driver: Option<string>)
    ensures var r := SetDriver(db, company, self, v, driver);
            r.Ok? ==>
              && VehiclesKept(db, r.value.db) && r.value.db.vehicles.Keys == db.vehicles.Keys
              && r.value.vehicle.companyId == v.companyId && r.value.vehicle.trackerId == v.trackerId
              && r.value.vehicle.deleted == v.deleted && r.value.vehicle.truckGroupId == v.truckGroupId
  {
  }

  lemma StoringKeepsVehicles(db: Db, mid: Db, id: string, w: Vehicle)
    requires VehiclesKept(db, mid) && mid.vehicles.Keys == db.vehicles.Keys && !w.deleted
    requires if id in db.vehicles then w.companyId == db.vehicles[id].companyId && w.trackerId == db.vehicles[id].trackerId else w.trackerId == None
    ensures var db' := mid.(vehicles := mid.vehicles[id := w]);
            VehiclesKept(db, db') && forall u :: u in db'.vehicles && u !in db.vehicles ==> db'.vehicles[u].trackerId == None
  {
  }

  lemma SavingVehicleKeeps(db: Db, company: string, id: string, creating: bool, v: Vehicle, driver: Option<string>)
    requires v.companyId == company && !v.deleted
    requires creating ==> v.trackerId == None
    requires !creating ==> id in db.vehicles && db.vehicles[id].companyId == company && db.vehicles[id].trackerId == v.trackerId
    ensures var db' := VehicleSaved(db, company, id, creating, v, driver).0;
            VehiclesKept(db, db') && forall u :: u in db'.vehicles && u !in db.vehicles ==> db'.vehicles[u].trackerId == None
  {
    var self := if creating then None else Some(id);
    PairingKeeps(db, company, self, v, driver);
    SaveEnds(db, company, id, creating, v, driver);
    var paired := SetDriver(db, company, self, v, driver);
    if VehicleSaved(db, company, id, creating, v, driver).1.Ok? { StoringKeepsVehicles(db, paired.value.db, id, VehicleWritten(paired.value.vehicle)); }
  }

  lemma CreateVehicleKeeps(db: Db, company: string, input: VehicleInput, newId: string)
    requires RegisterInv(db)
    ensures var db' := CreateVehicle(db, company, input, newId).0;
            RegisterInv(db') && forall t, v :: Agree(db, t, v) ==> Agree(db', t, v)
  {
    SavingVehicleKeeps(db, company, newId, true, VehicleApplied(input, NewVehicle(company)), input.currentDriverId);
    KeptVehiclesKeepRegister(db, CreateVehicle(db, company, input, newId).0);
  }

  lemma UpdateVehicleKeeps(db: Db, company: string, raw: string, input: VehicleInput)
    requires RegisterInv(db)
    ensures var db' := UpdateVehicle(db, company, raw, input).0;
            RegisterInv(db') && forall t, v :: Agree(db, t, v) ==> Agree(db', t, v)
  {
    var found := FindVehicle(db, company, raw);
    if found.Some? {
      SavingVehicleKeeps(db, company, found.value, false, VehicleApplied(input, db.vehicles[found.value]), input.currentDriverId);
      KeptVehiclesKeepRegister(db, UpdateVehicle(db, company, raw, input).0);
    }
  }

  /** Drivers play no part in fittings. */
  lemma DriversDoNotMatter(db: Db, drivers': map<string, Driver>)
    requires RegisterInv(db)
    ensures var db' := db.(drivers := drivers'); RegisterInv(db') && forall t, v :: Agree(db, t, v) ==> Agree(db', t, v)
  {
    KeptVehiclesKeepRegister(db, db.(drivers := drivers'));
  }

  lemma DeleteDriverKeeps(db: Db, company: string, raw: string)
    requires RegisterInv(db)
    ensures var db' := DeleteDriver(db, company, raw).0;
            RegisterInv(db') && forall t, v :: Agree(db, t, v) ==> Agree(db', t, v)
  {
    var (db', r) := DeleteDriver(db, company, raw);
    DeleteDriverEnds(db, company, raw);
    if r.Ok? {
      assert VehiclesKept(db, db');
      KeptVehiclesKeepRegister(db, db');
    }
  }

  lemma DriverStepKeeps(db: Db, op: Op)
    requires RegisterInv(db) && (op.OpCreateDriver? || op.OpUpdateDriver? || op.OpDeleteDriver?)
    ensures var db' := Step(db, op).0;
            RegisterInv(db') && forall t, v :: Agree(db, t, v) ==> Agree(db', t, v)
  {
    if op.OpCreateDriver? {
      CreateDriverEnds(db, op.company, op.driver, op.newId, op.clash);
      DriversDoNotMatter(db, Step(db, op).0.drivers);
    } else if op.OpUpdateDriver? {
      UpdateDriverEnds(db, op.company, op.id, op.driver, op.clash);
      DriversDoNotMatter(db, Step(db, op).0.drivers);
    } else {
      DeleteDriverKeeps(db, op.company, op.id);
    }
  }

  lemma FitKeeps(db: Db, company: string, raw: string, input: FitInput, now: Time, how: Conditions)
    requires RegisterInv(db)
    ensures var db' := Fit(db, company, raw, input, now, how).0;
      && RegisterInv(db')
      && (how.transactional || how.lostAfter.None? ==> forall t, v :: Agree(db, t, v) ==> Agree(db', t, v))
  {
    var plan := FitPlan(db, company, raw, input, now);
    if plan.Ok? {
      PlanIsSound(db, company, raw, input, now);
      var p := plan.value;
      var n := Survivors(how, FitSize(p));
      FitPrefixKeepsRegister(db, p, n);
      if n == FitSize(p) {
        forall t, v | Agree(db, t, v) ensures Agree(FitWrites(db, p, n), t, v) {
          if p.row.kind == Gps && (t == p.tracker || v == p.vehicle) {
            FitSettles(db, p, t, v);
          } else {
            FitLeavesOthersAlone(db, p, n, t, v);
          }
        }
      }
    }
  }

  lemma UnfitKeeps(db: Db, company: string, raw: string, at: Time, how: Conditions)
    requires RegisterInv(db)
    ensures var db' := Unfit(db, company, raw, at, how).0;
      && RegisterInv(db')
      && (how.transactional || how.lostAfter.None? ==> forall t, v :: Agree(db, t, v) ==> Agree(db', t, v))
  {
    var found := FindTracker(db, company, raw);
    if found.Some? {
      var size := if db.trackers[found.value].kind == Gps then 2 else 1;
      UnfitKeepsRegister(db, found.value, at, Survivors(how, size));
      forall t, v | Agree(db, t, v) ensures Agree(UnfitWrites(db, found.value, at, size), t, v) {
        UnfitSettles(db, found.value, at, t, v);
      }
    }
  }

  /** The ids the services compare as text are spelled the way the database prints them. */
  ghost predicate Spelled(op: Op) {
    match op
    case OpDeleteVehicle(_, id) => Canonical(id)
    case OpDeleteTracker(_, id) => Canonical(id)
    case OpDeleteDriver(_, id) => Canonical(id)
    case OpCreateVehicle(_, input, _) => GroupSpelled(input)
    case OpUpdateVehicle(_, _, input) => GroupSpelled(input)
    case _ => true
  }

  predicate GroupSpelled(input: VehicleInput) {
    input.truckGroupId.Some? ==> Trim(input.truckGroupId.value) == "" || Canonical(Trim(input.truckGroupId.value))
  }

  /** The operation retires nothing that is fitted: what it retires is spelled as stored, seen to be fitted, or free. */
  ghost predicate SparesFitted(db: Db, op: Op) {
    match op
    case OpDeleteVehicle(c, id) =>
      FindVehicle(db, c, id).None? || Canonical(id) || VehicleFitted(db, id) || !VehicleFitted(db, Oid(id).value)
      || db.vehicles[Oid(id).value].trackerId.Some?
    case OpDeleteTracker(c, id) =>
      FindTracker(db, c, id).None? || Canonical(id) || DeviceFitted(db, id) || !DeviceFitted(db, Oid(id).value)
    case _ => true
  }

  /** An operation, cut off part-way or not, keeps the register invariant if and only if it retires nothing that is fitted. */
  lemma StepKeepsRegisterExactly(db: Db, op: Op)
    requires RegisterInv(db)
    ensures RegisterInv(Step(db, op).0) <==> SparesFitted(db, op)
  {
    match op
    case OpCreateVehicle(c, input, newId) => CreateVehicleKeeps(db, c, input, newId);
    case OpUpdateVehicle(c, id, input) => UpdateVehicleKeeps(db, c, id, input);
    case OpDeleteVehicle(c, id) => if FindVehicle(db, c, id).Some? { DeleteVehicleKeepsExactly(db, c, id); }
    case OpCreateTracker(c, input, newId) => CreateTrackerKeeps(db, c, input, newId);
    case OpUpdateTracker(c, id, input, staff) => UpdateTrackerKeeps(db, c, id, input, staff);
    case OpDeleteTracker(c, id) => if FindTracker(db, c, id).Some? { DeleteTrackerKeepsExactly(db, c, id); }
    case OpFit(c, id, input, now, how) => FitKeeps(db, c, id, input, now, how);
    case OpUnfit(c, id, at, how) => UnfitKeeps(db, c, id, at, how);
    case OpCreateDriver(_, _, _, _) => DriverStepKeeps(db, op);
    case OpUpdateDriver(_, _, _, _) => DriverStepKeeps(db, op);
    case OpDeleteDriver(_, _) => DriverStepKeeps(db, op);
  }

  /** No write of the operation is lost, or it is undone as a whole. */
  predicate Whole(op: Op) {
    match op
    case OpFit(_, _, _, _, how) => how.transactional || how.lostAfter.None?
    case OpUnfit(_, _, _, how) => how.transactional || how.lostAfter.None?
    case _ => true
  }

  /** An operation that was not cut off keeps every device and vehicle in agreement that was. */
  lemma StepKeepsAgreement(db: Db, op: Op)
    requires RegisterInv(db) && Whole(op)
    ensures forall t, v :: Agree(db, t, v) ==> Agree(Step(db, op).0, t, v)
  {
    match op
    case OpCreateVehicle(c, input, newId) => CreateVehicleKeeps(db, c, input, newId);
    case OpUpdateVehicle(c, id, input) => UpdateVehicleKeeps(db, c, id, input);
    case OpFit(c, id, input, now, how) => FitKeeps(db, c, id, input, now, how);
    case OpUnfit(c, id, at, how) => UnfitKeeps(db, c, id, at, how);
    case OpDeleteDriver(_, _) => DriverStepKeeps(db, op);
    case _ =>
  }
}
