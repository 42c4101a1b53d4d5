/** What an accepted fitting or unfitting of any device leaves, and which are accepted. */
module FittingOutcomes {
  import opened Wrappers
  import opened Records
  import opened Registry
  import opened Fitting

  /** The open stretch gives way: it is the device's, or of its kind on the vehicle. */
  predicate GivesWay(a: Assignment, device: string, kind: DeviceKind, vehicle: string) {
    a.unfittedAt.None? && (a.trackerId == device || (a.vehicleId == vehicle && a.kind == kind))
  }

  predicate EndsAt(a: Assignment, a': Assignment, at: Time) {
    a' == a.(unfittedAt := Some(at))
  }

  /** The stretches before, those that give way ended at the instant, and one more: this device on this vehicle from then on. */
  ghost predicate StretchBegun(rows: seq<Assignment>, rows': seq<Assignment>, company: string, id: string, device: Tracker,
                               vehicle: string, at: Time) {
    && |rows'| == |rows| + 1
    && rows'[|rows|] == Assignment(company, id, vehicle, device.kind, device.deviceId, device.imei, at, None)
    && forall i :: 0 <= i < |rows| ==>
         if GivesWay(rows[i], id, device.kind, vehicle) then EndsAt(rows[i], rows'[i], at) else rows'[i] == rows[i]
  }

  /** Only a GPS device is copied onto its vehicle, and off every other. */
  ghost predicate CopyMoved(vs: map<string, Vehicle>, vs': map<string, Vehicle>, id: string, kind: DeviceKind, vehicle: string) {
    if kind != Gps then vs' == vs
    else vs'.Keys == vs.Keys && forall u :: u in vs ==>
      vs'[u] == vs[u].(trackerId := if u == vehicle then Some(id) else if vs[u].trackerId == Some(id) then None else vs[u].trackerId)
  }

  /** What an Ok from a fitting means, for a device of any kind. */
  ghost predicate FitDone(db: Db, company: string, rawTracker: string, input: FitInput, now: Time, db': Db) {
    var t, v := FindTracker(db, company, rawTracker), FindVehicle(db, company, input.vehicleId);
    && t.Some? && v.Some?
    && var (device, at) := (db.trackers[t.value], if input.fittedAt.Some? then input.fittedAt.value else now);
       && StretchBegun(db.assignments, db'.assignments, company, t.value, device, v.value, at)
       && CopyMoved(db.vehicles, db'.vehicles, t.value, device.kind, v.value)
       && db' == db.(assignments := db'.assignments, vehicles := db'.vehicles)
  }

  /** Afterwards the new stretch alone is open for the device, and alone of its kind on the vehicle. */
  lemma OneStretchIsOpen(rows: seq<Assignment>, rows': seq<Assignment>, company: string, id: string, device: Tracker, vehicle: string, at: Time)
    requires StretchBegun(rows, rows', company, id, device, vehicle, at)
    ensures forall i :: 0 <= i < |rows'| ==> (GivesWay(rows'[i], id, device.kind, vehicle) <==> i == |rows|)
  {
  }

  lemma VacatedEnds(db: Db, p: Plan, i: nat)
    requires RegisterInv(db) && PlanFor(db, p) && i < |db.assignments|
    ensures var (a, a') := (db.assignments[i], Vacated(db.assignments, p)[i]);
            if GivesWay(a, p.tracker, p.row.kind, p.vehicle) then EndsAt(a, a', p.row.fittedAt) else a' == a
  {
    assert RowSound(db, db.assignments[i]);
  }

  lemma AllWritesMove(db: Db, p: Plan)
    requires RegisterInv(db) && PlanFor(db, p)
    ensures var db' := FitWrites(db, p, FitSize(p));
      && |db'.assignments| == |db.assignments| + 1 && db'.assignments[|db.assignments|] == p.row
      && (forall i :: 0 <= i < |db.assignments| ==> db'.assignments[i] == Vacated(db.assignments, p)[i])
      && CopyMoved(db.vehicles, db'.vehicles, p.tracker, p.row.kind, p.vehicle)
      && db' == db.(assignments := db'.assignments, vehicles := db'.vehicles)
  {
    WritesSpelledOut(db, p, FitSize(p));
  }

  /** A finished fitting of any device does this. */
  lemma FitDoes(db: Db, company: string, raw: string, input: FitInput, now: Time, how: Conditions)
    requires RegisterInv(db)
    ensures var (db', r) := Fit(db, company, raw, input, now, how); r.Ok? ==> FitDone(db, company, raw, input, now, db')
  {
    if Fit(db, company, raw, input, now, how).1.Ok? {
      var p := FitPlan(db, company, raw, input, now).value;
      PlanIsSound(db, company, raw, input, now);
      PlanRowIs(db, company, raw, input, now);
      AllWritesMove(db, p);
      forall i | 0 <= i < |db.assignments|
        ensures var (a, a') := (db.assignments[i], Vacated(db.assignments, p)[i]);
                if GivesWay(a, p.tracker, p.row.kind, p.vehicle) then EndsAt(a, a', p.row.fittedAt) else a' == a
      {
        VacatedEnds(db, p, i);
      }
    }
  }

  lemma PlanRowIs(db: Db, company: string, raw: string, input: FitInput, now: Time)
    requires RegisterInv(db) && FitPlan(db, company, raw, input, now).Ok?
    ensures var p := FitPlan(db, company, raw, input, now).value;
      && FindTracker(db, company, raw) == Some(p.tracker) && FindVehicle(db, company, input.vehicleId) == Some(p.vehicle)
      && var device := db.trackers[p.tracker];
         p.row == Assignment(company, p.tracker, p.vehicle, device.kind, device.deviceId, device.imei,
                             if input.fittedAt.Some? then input.fittedAt.value else now, None)
  {
    var device := db.trackers[FindTracker(db, company, raw).value];
    var at := if input.fittedAt.Some? then input.fittedAt.value else now;
    assert IdentityStored(device);
    CopyIsFaithful(device, Assignment(company, FindTracker(db, company, raw).value, FindVehicle(db, company, input.vehicleId).value,
                                      device.kind, device.deviceId, device.imei, at, None));
  }

  /** The answer of a fitting: only an active device, on a vehicle of the company, and no more than a minute ahead. */
  lemma FitAnswersExactly(db: Db, company: string, raw: string, input: FitInput, now: Time, how: Conditions)
    requires IdentitiesStored(db.trackers)
    ensures var (t, v) := (FindTracker(db, company, raw), FindVehicle(db, company, input.vehicleId));
            Fit(db, company, raw, input, now, how).1 ==
            if t.None? then Refused(NotFound)
            else if db.trackers[t.value].status !in {"active", ""} || v.None? then Refused(Validation)
            else if (if input.fittedAt.Some? then input.fittedAt.value else now) > now + 60 * 1_000_000_000 then Refused(Validation)
            else if how.lostAfter.Some? && how.lostAfter.value < (if db.trackers[t.value].kind == Gps then 5 else 3) then Refused(StoreFailed)
            else Ok(t.value)
  {
    var t := FindTracker(db, company, raw);
    if t.Some? { assert IdentityStored(db.trackers[t.value]); }
  }

  // ----- What a fitting ends and copies, wherever it starts and stops -----

  /** Open, and of this device, or on this vehicle and of a live device of its kind. */
  predicate MadeWay(db: Db, a: Assignment, device: string, vehicle: string)
    requires device in db.trackers
  {
    && a.unfittedAt.None?
    && (|| a.trackerId == device
        || (a.vehicleId == vehicle && a.trackerId in db.trackers && !db.trackers[a.trackerId].deleted
            && db.trackers[a.trackerId].kind == db.trackers[device].kind))
  }

  /** From any state, a fitting ends exactly these stretches: one of a retired device stays open on the vehicle. */
  lemma FitEndsExactly(db: Db, company: string, raw: string, input: FitInput, now: Time, how: Conditions, i: nat)
    requires Fit(db, company, raw, input, now, how).1.Ok? && i < |db.assignments|
    ensures var (t, v) := (FindTracker(db, company, raw).value, FindVehicle(db, company, input.vehicleId).value);
            var rows := Fit(db, company, raw, input, now, how).0.assignments;
      && |rows| == |db.assignments| + 1
      && if MadeWay(db, db.assignments[i], t, v)
         then EndsAt(db.assignments[i], rows[i], if input.fittedAt.Some? then input.fittedAt.value else now)
         else rows[i] == db.assignments[i]
  {
    var p := FitPlan(db, company, raw, input, now).value;
    WritesSpelledOut(db, p, FitSize(p));
    assert Vacated(db.assignments, p)[i] == Fit(db, company, raw, input, now, how).0.assignments[i];
    assert MadeWay(db, db.assignments[i], p.tracker, p.vehicle) <==>
           Open(db.assignments[i]) && (db.assignments[i].trackerId == p.tracker
                                       || (db.assignments[i].vehicleId == p.vehicle && db.assignments[i].trackerId in p.kindIds));
  }

  /** Cut off anywhere, the copies are first taken off the other vehicles, then put on this one, which never loses its own. */
  lemma CopiesExactly(db: Db, p: Plan, n: nat, u: string)
    requires n <= 5 && p.vehicle in db.vehicles && u in db.vehicles
    ensures var (v, vs) := (db.vehicles[u], FitWrites(db, p, n).vehicles);
            vs.Keys == db.vehicles.Keys &&
            vs[u] == if u == p.vehicle && n == 5 then v.(trackerId := Some(p.tracker))
                     else if u != p.vehicle && n >= 4 && v.trackerId == Some(p.tracker) then v.(trackerId := None)
                     else v
  {
    WritesSpelledOut(db, p, n);
  }

  // ----- Taking off -----

  /** What an Ok from an unfitting means, for a device of any kind. */
  ghost predicate UnfitDone(db: Db, company: string, rawTracker: string, at: Time, db': Db) {
    var t := FindTracker(db, company, rawTracker);
    && t.Some?
    && |db'.assignments| == |db.assignments|
    && (forall i :: 0 <= i < |db.assignments| ==>
          if db.assignments[i].unfittedAt.None? && db.assignments[i].trackerId == t.value then EndsAt(db.assignments[i], db'.assignments[i], at)
          else db'.assignments[i] == db.assignments[i])
    && (exists i :: 0 <= i < |db.assignments| && db.assignments[i].unfittedAt.None? && db.assignments[i].trackerId == t.value)
    && (if db.trackers[t.value].kind != Gps then db'.vehicles == db.vehicles
        else db'.vehicles.Keys == db.vehicles.Keys && forall u :: u in db.vehicles ==>
          db'.vehicles[u] == if db.vehicles[u].trackerId == t then db.vehicles[u].(trackerId := None) else db.vehicles[u])
    && db' == db.(assignments := db'.assignments, vehicles := db'.vehicles)
  }

  lemma UnfitDoes(db: Db, company: string, raw: string, at: Time, how: Conditions)
    ensures var (db', r) := Unfit(db, company, raw, at, how); r.Ok? ==> UnfitDone(db, company, raw, at, db')
  {
    var (db', r) := Unfit(db, company, raw, at, how);
    if r.Ok? {
      var t := FindTracker(db, company, raw).value;
      var a :| a in db.assignments && a.trackerId == t && Open(a);
      var i :| 0 <= i < |db.assignments| && db.assignments[i] == a;
      assert db' == UnfitWrites(db, t, at, if db.trackers[t].kind == Gps then 2 else 1);
    }
  }

  lemma UnfitAnswersExactly(db: Db, company: string, raw: string, at: Time, how: Conditions)
    ensures var t := FindTracker(db, company, raw);
            Unfit(db, company, raw, at, how).1 ==
            if t.None? then Refused(NotFound)
            else if how.lostAfter == Some(0) then Refused(StoreFailed)
            else if !exists a :: a in db.assignments && a.trackerId == t.value && a.unfittedAt.None? then Refused(Conflict)
            else if db.trackers[t.value].kind == Gps && how.lostAfter == Some(1) then Refused(StoreFailed)
            else Ok(t.value)
  {
  }
}
