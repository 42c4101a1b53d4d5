/** Rules of the register beside fittings: one truck per driver, whole group references, unique plates. */
module FleetRules {
  import opened Wrappers
  import opened Text
  import opened Normalise
  import opened Records
  import opened Registry
  import opened RegistryFrames
  import opened Catalog
  import Fitting

  // ----- One truck per driver -----

  /** The driver named is live and of the vehicle's company; without one there is no login either. */
  ghost predicate DriverSound(db: Db, v: Vehicle) {
    match v.currentDriverId
    case None => v.currentDriverUserId.None?
    case Some(d) => d in db.drivers && !db.drivers[d].deleted && db.drivers[d].companyId == v.companyId
  }

  ghost predicate PairInv(db: Db) {
    && (forall v :: v in db.vehicles ==> DriverSound(db, db.vehicles[v]))
    && (forall u, v :: u in db.vehicles && v in db.vehicles && u != v && db.vehicles[u].currentDriverId.Some? ==>
          db.vehicles[u].currentDriverId != db.vehicles[v].currentDriverId)
  }

  /** The document about to be saved carries the driver the stored one has, or none when new. */
  ghost predicate CarriesDriver(db: Db, id: string, creating: bool, v: Vehicle) {
    if creating then v.currentDriverId.None? && v.currentDriverUserId.None?
    else id in db.vehicles && v.currentDriverId == db.vehicles[id].currentDriverId
         && v.currentDriverUserId == db.vehicles[id].currentDriverUserId && v.companyId == db.vehicles[id].companyId
  }

  lemma UnpairingKeepsPairs(db: Db, company: string, d: string, self: Option<string>)
    requires PairInv(db)
    ensures PairInv(db.(vehicles := Unpaired(db.vehicles, company, d, self)))
  {
    var mid := db.(vehicles := Unpaired(db.vehicles, company, d, self));
    forall u | u in mid.vehicles ensures DriverSound(mid, mid.vehicles[u]) { assert DriverSound(db, db.vehicles[u]); }
  }

  /** A vehicle may be written over one that carries the same driver, or one nobody else carries. */
  lemma WritingKeepsPairs(db: Db, id: string, w: Vehicle)
    requires PairInv(db) && DriverSound(db, w)
    requires forall u :: u in db.vehicles && u != id && w.currentDriverId.Some? ==> db.vehicles[u].currentDriverId != w.currentDriverId
    ensures PairInv(db.(vehicles := db.vehicles[id := w]))
  {
    var end := db.(vehicles := db.vehicles[id := w]);
    forall u | u in end.vehicles ensures DriverSound(end, end.vehicles[u]) {
      assert u != id ==> DriverSound(db, db.vehicles[u]);
    }
  }

  /** Once taken from the others, a driver is nobody else's. */
  lemma UnpairedIsFree(db: Db, company: string, d: string, id: string, creating: bool)
    requires PairInv(db) && d in db.drivers && db.drivers[d].companyId == company
    ensures var vs := Unpaired(db.vehicles, company, d, if creating then None else Some(id));
            PairInv(db.(vehicles := vs)) && forall u :: u in vs && u != id ==> vs[u].currentDriverId != Some(d)
  {
    UnpairingKeepsPairs(db, company, d, if creating then None else Some(id));
    forall u | u in db.vehicles && db.vehicles[u].currentDriverId == Some(d) ensures db.vehicles[u].companyId == company {
      assert DriverSound(db, db.vehicles[u]);
    }
  }

  /** The driver of the document to be written is sound, and after the unpairing nobody else carries it. */
  lemma DriverIsFree(db: Db, company: string, id: string, creating: bool, v: Vehicle, driver: Option<string>)
    requires PairInv(db) && v.companyId == company && CarriesDriver(db, id, creating, v)
    requires SetDriver(db, company, if creating then None else Some(id), v, driver).Ok?
    ensures var r := SetDriver(db, company, if creating then None else Some(id), v, driver).value;
      && PairInv(r.db) && DriverSound(r.db, r.vehicle)
      && forall u :: u in r.db.vehicles && u != id && r.vehicle.currentDriverId.Some? ==> r.db.vehicles[u].currentDriverId != r.vehicle.currentDriverId
  {
    var self := if creating then None else Some(id);
    var r := SetDriver(db, company, self, v, driver).value;
    DriverEnds(db, company, self, v, driver);
    if r.db == db && (r.vehicle == v || r.vehicle == Released(v)) {
      if !creating { assert DriverSound(db, db.vehicles[id]); }
    } else {
      var d, login :| d in db.drivers && !db.drivers[d].deleted && db.drivers[d].companyId == company
        && r.db == db.(vehicles := Unpaired(db.vehicles, company, d, self))
        && r.vehicle == v.(currentDriverId := Some(d), currentDriverUserId := login);
      UnpairedIsFree(db, company, d, id, creating);
    }
  }

  /** Unpairing the others first leaves the pairs sound whether or not the vehicle itself is then written. */
  lemma SavingKeepsPairs(db: Db, company: string, id: string, creating: bool, v: Vehicle, driver: Option<string>)
    requires PairInv(db) && v.companyId == company && CarriesDriver(db, id, creating, v)
    ensures PairInv(VehicleSaved(db, company, id, creating, v, driver).0)
  {
    SaveEnds(db, company, id, creating, v, driver);
    var paired := SetDriver(db, company, if creating then None else Some(id), v, driver);
    if paired.Ok? {
      DriverIsFree(db, company, id, creating, v, driver);
      WritingKeepsPairs(paired.value.db, id, VehicleWritten(paired.value.vehicle));
    }
  }

  /**
   * Giving a vehicle another driver takes the driver from every truck that had it: afterwards
   * this vehicle has it, with the driver's login, and every other truck of the company has the
   * driver it had, or none if it was this one.
   */
  lemma PairingTakes(db: Db, company: string, id: string, creating: bool, v: Vehicle, raw: string)
    requires PairInv(db) && v.companyId == company && CarriesDriver(db, id, creating, v) && Trim(raw) != ""
    requires VehicleSaved(db, company, id, creating, v, Some(raw)).1.Ok?
    ensures var (d, db') := (Oid(raw), VehicleSaved(db, company, id, creating, v, Some(raw)).0);
      && d.Some? && d.value in db.drivers && !db.drivers[d.value].deleted
      && db.drivers[d.value].companyId == company && db.drivers[d.value].status == "active"
      && id in db'.vehicles && db'.vehicles[id].currentDriverId == d
      && (v.currentDriverId != d ==> db'.vehicles[id].currentDriverUserId == db.drivers[d.value].userId)
      && forall u :: u in db.vehicles && u != id ==>
           u in db'.vehicles && db'.vehicles[u].currentDriverId == if db.vehicles[u].currentDriverId == d then None else db.vehicles[u].currentDriverId
  {
    SaveEnds(db, company, id, creating, v, Some(raw));
    var self := if creating then None else Some(id);
    var d := FindDriver(db, company, raw).value;
    if v.currentDriverId == Some(d) {
      forall u | u in db.vehicles && u != id ensures db.vehicles[u].currentDriverId != Some(d) {
        assert id in db.vehicles;
      }
    } else {
      forall u | u in db.vehicles && db.vehicles[u].currentDriverId == Some(d) ensures db.vehicles[u].companyId == company {
        assert DriverSound(db, db.vehicles[u]);
      }
    }
  }

  /** A vehicle saved with the driver left out keeps the one it has; with a blank one, it has none; nobody else is touched. */
  lemma PairingKeepsOrReleases(db: Db, company: string, id: string, creating: bool, v: Vehicle, driver: Option<string>)
    requires driver.Some? ==> Trim(driver.value) == ""
    requires VehicleSaved(db, company, id, creating, v, driver).1.Ok?
    ensures var db' := VehicleSaved(db, company, id, creating, v, driver).0;
      && id in db'.vehicles && db'.vehicles[id].currentDriverId == (if driver.Some? then None else v.currentDriverId)
      && forall u :: u in db.vehicles && u != id ==> u in db'.vehicles && db'.vehicles[u] == db.vehicles[u]
  {
    SaveEnds(db, company, id, creating, v, driver);
  }

  /** Naming the driver it already has is naming none: not even a login that has changed since is taken over. */
  lemma NamingItsDriverIsNothing(db: Db, company: string, id: string, creating: bool, v: Vehicle, raw: string)
    requires DriverAccepted(db, company, Some(raw)) && Trim(raw) != "" && v.currentDriverId == Oid(raw)
    ensures VehicleSaved(db, company, id, creating, v, Some(raw)) == VehicleSaved(db, company, id, creating, v, None)
  {
  }

  /** Vehicles keep their company and their driver. */
  ghost predicate DriversKept(vs: map<string, Vehicle>, vs': map<string, Vehicle>) {
    vs'.Keys == vs.Keys && forall u :: u in vs ==>
      vs'[u].companyId == vs[u].companyId && vs'[u].currentDriverId == vs[u].currentDriverId && vs'[u].currentDriverUserId == vs[u].currentDriverUserId
  }

  lemma KeptDriversKeepPairs(db: Db, db': Db)
    requires PairInv(db) && DriversKept(db.vehicles, db'.vehicles)
    requires forall d :: d in db.drivers ==>
      d in db'.drivers && db'.drivers[d].companyId == db.drivers[d].companyId && db'.drivers[d].deleted == db.drivers[d].deleted
    ensures PairInv(db')
  {
    forall u | u in db'.vehicles ensures DriverSound(db', db'.vehicles[u]) { assert DriverSound(db, db.vehicles[u]); }
  }

  /** Retiring a driver releases every truck exactly when the id is spelled as stored, or none was paired. */
  lemma DeleteDriverKeepsExactly(db: Db, company: string, raw: string)
    requires PairInv(db) && FindDriver(db, company, raw).Some?
    ensures PairInv(DeleteDriver(db, company, raw).0) <==>
            (Canonical(raw) || forall v :: v in db.vehicles ==> db.vehicles[v].currentDriverId != Oid(raw))
  {
    var id := Oid(raw).value;
    var db' := DeleteDriver(db, company, raw).0;
    if v :| v in db.vehicles && db.vehicles[v].currentDriverId == Some(id) && raw != id {
      assert DriverSound(db, db.vehicles[v]);
      assert !DriverSound(db', db'.vehicles[v]);
    } else {
      forall u | u in db'.vehicles ensures DriverSound(db', db'.vehicles[u]) { assert DriverSound(db, db.vehicles[u]); }
    }
  }

  // ----- Group references -----

  /** Saving a vehicle stores the group id as typed: the reference is whole exactly when that is the printed id. */
  lemma SavingKeepsGroupsExactly(db: Db, company: string, id: string, creating: bool, v: Vehicle, driver: Option<string>)
    requires GroupInv(db) && v.companyId == company
    requires VehicleSaved(db, company, id, creating, v, driver).1.Ok?
    ensures GroupInv(VehicleSaved(db, company, id, creating, v, driver).0) <==>
            (v.truckGroupId.None? || ObjectId(v.truckGroupId.value) == v.truckGroupId)
  {
    var db' := VehicleSaved(db, company, id, creating, v, driver).0;
    SaveEnds(db, company, id, creating, v, driver);
    DriverEnds(db, company, if creating then None else Some(id), v, driver);
    assert db'.vehicles[id].truckGroupId == v.truckGroupId && db'.vehicles[id].companyId == company;
    forall u | u in db'.vehicles && u != id ensures GroupSound(db', db'.vehicles[u]) {
      assert GroupSound(db, db.vehicles[u]);
    }
    assert GroupInv(db') <==> GroupSound(db', db'.vehicles[id]);
  }

  ghost predicate GroupsKept(vs: map<string, Vehicle>, vs': map<string, Vehicle>) {
    forall u :: u in vs' ==> u in vs && vs'[u].companyId == vs[u].companyId && vs'[u].truckGroupId in {None, vs[u].truckGroupId}
  }

  lemma KeptGroupsKeepInv(db: Db, db': Db)
    requires GroupInv(db) && GroupsKept(db.vehicles, db'.vehicles)
    requires forall c, g :: GroupLive(db, c, g) ==> GroupLive(db', c, g)
    ensures GroupInv(db')
  {
    forall u | u in db'.vehicles ensures GroupSound(db', db'.vehicles[u]) { assert GroupSound(db, db.vehicles[u]); }
  }

  /** The input names no driver, none, or an active one of the company. */
  predicate DriverAccepted(db: Db, company: string, driver: Option<string>) {
    || driver.None? || Trim(driver.value) == ""
    || (FindDriver(db, company, driver.value).Some? && db.drivers[FindDriver(db, company, driver.value).value].status == "active")
  }

  /** The guards a vehicle passes before it is stored. */
  predicate SaveAccepted(db: Db, company: string, id: string, creating: bool, v: Vehicle, driver: Option<string>) {
    && GroupAccepted(db, company, v.truckGroupId) && DriverAccepted(db, company, driver)
    && VehicleValid(VehicleWritten(v)) && !(creating && id in db.vehicles) && !VehicleClash(db.vehicles, id, VehicleWritten(v))
  }

  /** Taking a driver from others changes nothing an index is on. */
  lemma UnpairingKeepsClashes(db: Db, company: string, d: string, self: Option<string>, id: string, v: Vehicle, w: Vehicle)
    requires v.companyId == w.companyId && v.deleted == w.deleted
    requires v.plateNormalised == w.plateNormalised && v.chassisNormalised == w.chassisNormalised
    ensures VehicleClash(Unpaired(db.vehicles, company, d, self), id, v) <==> VehicleClash(db.vehicles, id, w)
  {
    var vs := Unpaired(db.vehicles, company, d, self);
    if VehicleClash(db.vehicles, id, w) {
      var u :| u in db.vehicles && u != id && !db.vehicles[u].deleted
        && (|| (db.vehicles[u].companyId == w.companyId && db.vehicles[u].plateNormalised == w.plateNormalised)
            || (w.chassisNormalised.Some? && db.vehicles[u].chassisNormalised == w.chassisNormalised));
      assert u in vs && !vs[u].deleted;
    }
  }

  /** Whoever drives it, a vehicle is as valid and clashes as much as before. */
  lemma PairingKeepsGuards(db: Db, company: string, self: Option<string>, id: string, v: Vehicle, driver: Option<string>)
    requires SetDriver(db, company, self, v, driver).Ok?
    ensures var r := SetDriver(db, company, self, v, driver).value;
            var (w, w') := (VehicleWritten(v), VehicleWritten(r.vehicle));
            (VehicleValid(w') <==> VehicleValid(w)) && (VehicleClash(r.db.vehicles, id, w') <==> VehicleClash(db.vehicles, id, w))
  {
    var r := SetDriver(db, company, self, v, driver).value;
    if r.db != db {
      UnpairingKeepsClashes(db, company, FindDriver(db, company, driver.value).value, self, id, VehicleWritten(r.vehicle), VehicleWritten(v));
    }
  }

  lemma PairsExactly(db: Db, company: string, self: Option<string>, v: Vehicle, driver: Option<string>)
    ensures SetDriver(db, company, self, v, driver).Ok? <==> DriverAccepted(db, company, driver)
  {
  }

  /** A vehicle is stored exactly when it passes the guards. */
  lemma SavedExactly(db: Db, company: string, id: string, creating: bool, v: Vehicle, driver: Option<string>)
    ensures VehicleSaved(db, company, id, creating, v, driver).1.Ok? <==> SaveAccepted(db, company, id, creating, v, driver)
  {
    var self := if creating then None else Some(id);
    PairsExactly(db, company, self, v, driver);
    if DriverAccepted(db, company, driver) { PairingKeepsGuards(db, company, self, id, v, driver); }
  }

  /** Accepted or refused, saving keeps every group reference whole if and only if what it stores is the printed id. */
  lemma SavingKeepsGroups(db: Db, company: string, id: string, creating: bool, v: Vehicle, driver: Option<string>)
    requires GroupInv(db) && v.companyId == company
    ensures GroupInv(VehicleSaved(db, company, id, creating, v, driver).0) <==>
            || !SaveAccepted(db, company, id, creating, v, driver)
            || v.truckGroupId.None? || ObjectId(v.truckGroupId.value) == v.truckGroupId
  {
    var (db', r) := VehicleSaved(db, company, id, creating, v, driver);
    SaveEnds(db, company, id, creating, v, driver);
    SavedExactly(db, company, id, creating, v, driver);
    if r.Ok? {
      SavingKeepsGroupsExactly(db, company, id, creating, v, driver);
    } else if db' != db {
      DriverEnds(db, company, if creating then None else Some(id), v, driver);
      KeptGroupsKeepInv(db, db');
    }
  }

  /** Groups stay where they are, though they may be retired. */
  ghost predicate GroupsStay(docs: map<DocRef, Doc>, docs': map<DocRef, Doc>) {
    forall ref :: ref in docs && ref.kind == VEHICLE_GROUP ==> ref in docs' && docs'[ref].companyId == docs[ref].companyId
  }

  lemma KeptGroupsStayHome(db: Db, db': Db)
    requires GroupsAtHome(db) && GroupsKept(db.vehicles, db'.vehicles) && GroupsStay(db.docs, db'.docs)
    ensures GroupsAtHome(db')
  {
    forall u | u in db'.vehicles ensures GroupAtHome(db', db'.vehicles[u]) { assert GroupAtHome(db, db.vehicles[u]); }
  }

  lemma WritingKeepsHomes(db: Db, id: string, w: Vehicle)
    requires GroupsAtHome(db) && GroupAtHome(db, w)
    ensures GroupsAtHome(db.(vehicles := db.vehicles[id := w]))
  {
    var end := db.(vehicles := db.vehicles[id := w]);
    forall u | u in end.vehicles ensures GroupAtHome(end, end.vehicles[u]) {
      assert u != id ==> GroupAtHome(db, db.vehicles[u]);
    }
  }

  lemma PairingKeepsHomes(db: Db, company: string, self: Option<string>, v: Vehicle, driver: Option<string>)
    requires GroupsAtHome(db) && SetDriver(db, company, self, v, driver).Ok?
    ensures var r := SetDriver(db, company, self, v, driver).value;
            GroupsAtHome(r.db) && r.db.docs == db.docs && r.vehicle.truckGroupId == v.truckGroupId && r.vehicle.companyId == v.companyId
  {
    DriverEnds(db, company, self, v, driver);
    KeptGroupsStayHome(db, SetDriver(db, company, self, v, driver).value.db);
  }

  /** Whatever its spelling, the group a vehicle is saved with is one of its own company. */
  lemma SavingKeepsHomes(db: Db, company: string, id: string, creating: bool, v: Vehicle, driver: Option<string>)
    requires GroupsAtHome(db) && v.companyId == company && v.truckGroupId != Some("")
    ensures GroupsAtHome(VehicleSaved(db, company, id, creating, v, driver).0)
  {
    var self := if creating then None else Some(id);
    SaveEnds(db, company, id, creating, v, driver);
    if SetDriver(db, company, self, v, driver).Ok? {
      PairingKeepsHomes(db, company, self, v, driver);
      var paired := SetDriver(db, company, self, v, driver).value;
      if VehicleSaved(db, company, id, creating, v, driver).1.Ok? { WritingKeepsHomes(paired.db, id, VehicleWritten(paired.vehicle)); }
    }
  }

  /** Over a stored vehicle, the group to be stored is the printed id exactly when it was typed so, or not typed. */
  lemma AppliedGroupIsPrinted(input: VehicleInput, v: Vehicle)
    requires v.truckGroupId.Some? ==> ObjectId(v.truckGroupId.value) == v.truckGroupId
    ensures var g := VehicleApplied(input, v).truckGroupId;
            (g.None? || ObjectId(g.value) == g) <==> Fitting.GroupSpelled(input)
  {
    if input.truckGroupId.Some? { TrimIdempotent(input.truckGroupId.value); }
  }

  // ----- Unique plates and chassis numbers -----

  ghost predicate TwinsFilled(v: Vehicle) {
    v.plateNormalised == Plate(v.licensePlate) && v.chassisNormalised == Optional(Serial, v.chassisNumber) && v.plateNormalised != ""
  }

  ghost predicate TwinInv(db: Db) {
    && (forall v :: v in db.vehicles ==> TwinsFilled(db.vehicles[v]))
    && (forall u, v :: u in db.vehicles && v in db.vehicles && u != v && !db.vehicles[u].deleted && !db.vehicles[v].deleted ==>
          && (db.vehicles[u].companyId == db.vehicles[v].companyId ==> db.vehicles[u].plateNormalised != db.vehicles[v].plateNormalised)
          && (db.vehicles[u].chassisNormalised.Some? ==> db.vehicles[u].chassisNormalised != db.vehicles[v].chassisNormalised))
  }

  /** What the twins are for: no two live vehicles of a company carry one plate typed twice, and no two
      anywhere one chassis number. */
  lemma NoVehicleTwice(db: Db, u: string, v: string)
    requires TwinInv(db) && u in db.vehicles && v in db.vehicles && u != v
    requires !db.vehicles[u].deleted && !db.vehicles[v].deleted
    ensures db.vehicles[u].companyId == db.vehicles[v].companyId ==> !SamePlate(db.vehicles[u].licensePlate, db.vehicles[v].licensePlate)
    ensures var (a, b) := (db.vehicles[u].chassisNumber, db.vehicles[v].chassisNumber);
            a.Some? && b.Some? && SamePlate(a.value, b.value) ==> Plate(a.value) == "" || Trim(a.value) == "" || Trim(b.value) == ""
  {
    PlateIdentifies(db.vehicles[u].licensePlate, db.vehicles[v].licensePlate);
    if db.vehicles[u].chassisNumber.Some? && db.vehicles[v].chassisNumber.Some? {
      PlateIdentifies(db.vehicles[u].chassisNumber.value, db.vehicles[v].chassisNumber.value);
    }
  }

  /** Saving again what is stored changes neither twin. */
  lemma ResavingKeepsTwins(v: Vehicle)
    requires TwinsFilled(v)
    ensures VehicleWritten(v) == v.(status := VehicleWritten(v).status) && VehicleValid(v)
  {
    assert v.licensePlate != "";
  }

  lemma UnpairingKeepsTwins(db: Db, company: string, d: string, self: Option<string>)
    requires TwinInv(db)
    ensures TwinInv(db.(vehicles := Unpaired(db.vehicles, company, d, self)))
  {
    KeptTwinsKeepInv(db, db.(vehicles := Unpaired(db.vehicles, company, d, self)));
  }

  lemma PairingKeepsTwins(db: Db, company: string, self: Option<string>, v: Vehicle, driver: Option<string>)
    requires TwinInv(db) && SetDriver(db, company, self, v, driver).Ok?
    ensures var r := SetDriver(db, company, self, v, driver).value; TwinInv(r.db) && r.vehicle.deleted == v.deleted
  {
    forall d { UnpairingKeepsTwins(db, company, d, self); }
  }

  lemma SavingKeepsTwins(db: Db, company: string, id: string, creating: bool, v: Vehicle, driver: Option<string>)
    requires TwinInv(db) && !v.deleted
    ensures TwinInv(VehicleSaved(db, company, id, creating, v, driver).0)
  {
    SaveEnds(db, company, id, creating, v, driver);
    var self := if creating then None else Some(id);
    var paired := SetDriver(db, company, self, v, driver);
    if paired.Ok? {
      PairingKeepsTwins(db, company, self, v, driver);
      if VehicleSaved(db, company, id, creating, v, driver).1.Ok? {
        WritingKeepsTwins(paired.value.db, id, VehicleWritten(paired.value.vehicle));
      }
    }
  }

  lemma WritingKeepsTwins(db: Db, id: string, w: Vehicle)
    requires TwinInv(db) && TwinsFilled(w) && !w.deleted && !VehicleClash(db.vehicles, id, w)
    ensures TwinInv(db.(vehicles := db.vehicles[id := w]))
  {
  }

  /** Vehicles keep what the indexes are built on, or are retired. */
  ghost predicate TwinsKept(vs: map<string, Vehicle>, vs': map<string, Vehicle>) {
    forall u :: u in vs' ==>
      && u in vs && vs'[u].companyId == vs[u].companyId && (vs[u].deleted ==> vs'[u].deleted)
      && vs'[u].licensePlate == vs[u].licensePlate && vs'[u].plateNormalised == vs[u].plateNormalised
      && vs'[u].chassisNumber == vs[u].chassisNumber && vs'[u].chassisNormalised == vs[u].chassisNormalised
  }

  lemma KeptTwinsKeepInv(db: Db, db': Db)
    requires TwinInv(db) && TwinsKept(db.vehicles, db'.vehicles)
    ensures TwinInv(db')
  {
    forall u | u in db'.vehicles ensures TwinsFilled(db'.vehicles[u]) { assert TwinsFilled(db.vehicles[u]); }
  }

  /** Retiring a vehicle frees its plate and its chassis number for whoever comes next. */
  lemma DeletingFreesTwins(db: Db, company: string, raw: string, newId: string, w: Vehicle)
    requires TwinInv(db) && DeleteVehicle(db, company, raw).1.Ok?
    requires var v := db.vehicles[Oid(raw).value];
             w.companyId == v.companyId && w.plateNormalised == v.plateNormalised && w.chassisNormalised == v.chassisNormalised
    ensures !VehicleClash(DeleteVehicle(db, company, raw).0.vehicles, newId, w)
  {
    var id := Oid(raw).value;
    forall u | u in db.vehicles && u != id && !db.vehicles[u].deleted
      ensures !(db.vehicles[u].companyId == w.companyId && db.vehicles[u].plateNormalised == w.plateNormalised)
      ensures !(w.chassisNormalised.Some? && db.vehicles[u].chassisNormalised == w.chassisNormalised)
    {
      assert !db.vehicles[id].deleted;
    }
  }
}
