/** The documents this service stores, and the one write path that fills their folded twins. */
module Records {
  import opened Wrappers
  import opened Text
  import opened Normalise

  /** Nanoseconds. */
  type Time = int

  const MINUTE: Time := 60_000_000_000

  datatype DeviceKind = NoKind | Gps | Dashcam

  datatype Tracker = Tracker(
    companyId: Option<string>,  // absent while the device sits in Karlo's stock
    kind: DeviceKind, deviceId: string, imei: string, iccid: Option<string>, status: string, deleted: bool)

  datatype Vehicle = Vehicle(
    companyId: string, licensePlate: string, plateNormalised: string,
    chassisNumber: Option<string>, chassisNormalised: Option<string>,
    truckGroupId: Option<string>,
    trackerId: Option<string>,  // a copy of the open GPS assignment
    currentDriverId: Option<string>, currentDriverUserId: Option<string>,
    status: string, deleted: bool)

  datatype Driver = Driver(companyId: string, fullName: string, status: string, userId: Option<string>, deleted: bool)

  datatype Assignment = Assignment(
    companyId: string, trackerId: string, vehicleId: string,
    kind: DeviceKind, deviceId: string, imei: string,
    fittedAt: Time, unfittedAt: Option<Time>)

  /** One entry of a reference list. Vehicle groups are entries too. */
  datatype Doc = Doc(companyId: Option<string>, nameNormalised: string, fields: map<string, string>, deleted: bool)

  /** Each list is its own collection, so an id is looked up within its kind. */
  datatype DocRef = DocRef(kind: string, id: string)

  datatype Db = Db(
    trackers: map<string, Tracker>,
    vehicles: map<string, Vehicle>,
    drivers: map<string, Driver>,
    assignments: seq<Assignment>,
    docs: map<DocRef, Doc>)

  const VEHICLE_GROUP := "vehicleGroup"

  // ----- BeforeWrite and Validate -----

  function VehicleWritten(v: Vehicle): Vehicle {
    v.(plateNormalised := Plate(v.licensePlate),
       chassisNormalised := Optional(Serial, v.chassisNumber),
       status := if v.status == "" then "active" else v.status)
  }

  predicate VehicleValid(v: Vehicle) {
    v.licensePlate != "" && v.plateNormalised != ""
  }

  function TrackerWritten(t: Tracker): Tracker {
    var kind := if t.kind == NoKind then Gps else t.kind;
    var id := if kind == Gps then Imei(if t.deviceId == "" then t.imei else t.deviceId) else Trim(t.deviceId);
    t.(kind := kind, deviceId := id, imei := if kind == Gps then id else "",
       iccid := Optional(Imei, t.iccid), status := if t.status == "" then "active" else t.status)
  }

  function AssignmentWritten(a: Assignment): Assignment {
    var kind := if a.kind == NoKind then Gps else a.kind;
    if kind == Gps then
      var id := Imei(if a.deviceId == "" then a.imei else a.deviceId);
      a.(kind := kind, deviceId := id, imei := id)
    else
      a.(imei := "")
  }

  function DriverWritten(d: Driver): Driver {
    d.(fullName := Trim(d.fullName), status := if d.status == "" then "active" else d.status)
  }

  predicate DriverValid(d: Driver) {
    d.fullName != "" && d.status in {"active", "inactive"}
  }

  // ----- The unique indexes, partial on documents not deleted -----

  predicate VehicleClash(vehicles: map<string, Vehicle>, id: string, v: Vehicle) {
    !v.deleted && exists u ::
      && u in vehicles && u != id && !vehicles[u].deleted
      && (|| (vehicles[u].companyId == v.companyId && vehicles[u].plateNormalised == v.plateNormalised)
          || (v.chassisNormalised.Some? && vehicles[u].chassisNormalised == v.chassisNormalised))
  }

  predicate TrackerClash(trackers: map<string, Tracker>, id: string, t: Tracker) {
    !t.deleted && exists u ::
      && u in trackers && u != id && !trackers[u].deleted
      && (|| (trackers[u].kind == t.kind && trackers[u].deviceId == t.deviceId)
          || (t.imei != "" && trackers[u].imei == t.imei)
          || (t.iccid.Some? && trackers[u].iccid == t.iccid))
  }

  predicate DriverClash(drivers: map<string, Driver>, id: string, d: Driver) {
    !d.deleted && d.userId.Some? && exists u ::
      u in drivers && u != id && !drivers[u].deleted && drivers[u].userId == d.userId
  }

  // ----- What the writes leave behind -----

  /** A device's identity as stored: digits for a tracker, a trimmed id and no IMEI for a dashcam. */
  predicate IdentityStored(t: Tracker) {
    && t.kind != NoKind
    && (t.kind == Gps ==> |t.deviceId| == 15 && Imei(t.deviceId) == t.deviceId && t.imei == t.deviceId)
    && (t.kind == Dashcam ==> t.deviceId != "" && Trim(t.deviceId) == t.deviceId && t.imei == "")
  }

  /** A write leaves a stored identity exactly when the device has fifteen digits, in its id or, without one, in its IMEI, or a camera an id. */
  lemma SavingIdentifiesExactly(t: Tracker)
    ensures IdentityStored(TrackerWritten(t)) <==>
            if t.kind == Dashcam then exists c :: c in t.deviceId && !IsSpace(c)
            else |Filter(IsDigit, if t.deviceId == "" then t.imei else t.deviceId)| == 15
  {
    FoldingIsIdempotent(if t.deviceId == "" then t.imei else t.deviceId);
    TrimIdempotent(t.deviceId);
    BlankExactly(t.deviceId);
  }

  /** Saving a stored device again changes nothing about what it is. */
  lemma StoredIdentityIsStable(t: Tracker)
    requires IdentityStored(t)
    ensures var w := TrackerWritten(t); w.kind == t.kind && w.deviceId == t.deviceId && w.imei == t.imei
  {
  }

  /** Whatever it copies, a row is stored with a kind; a tracker's with the digits of its number, a camera's without an IMEI. */
  lemma RowIsTold(a: Assignment)
    ensures var w := AssignmentWritten(a);
      && w.kind == (if a.kind == Dashcam then Dashcam else Gps)
      && (w.kind == Gps ==> w.imei == w.deviceId == Filter(IsDigit, if a.deviceId == "" then a.imei else a.deviceId) && forall c :: c in w.imei ==> IsDigit(c))
      && (w.kind == Dashcam ==> w.imei == "" && w.deviceId == a.deviceId)
      && w.(kind := a.kind, deviceId := a.deviceId, imei := a.imei) == a
  {
    FilterKeepsOnly(IsDigit, if a.deviceId == "" then a.imei else a.deviceId);
  }

  /** An assignment copies the identity of a stored device without altering it. */
  lemma CopyIsFaithful(t: Tracker, a: Assignment)
    requires IdentityStored(t) && a.kind == t.kind && a.deviceId == t.deviceId && a.imei == t.imei
    ensures AssignmentWritten(a) == a
  {
  }
}
