/** Which device was on which vehicle (devices.go): point queries, their reverse, and windows. */
module Devices {
  import opened Wrappers
  import opened Records
  import opened Fitting
  import opened History

  // ----- What the queries mean -----

  /** The vehicle carried the IMEI at the instant. */
  ghost predicate Carries(rows: seq<Assignment>, company: string, v: string, imei: string, t: Time) {
    imei != "" && exists i ::
      && 0 <= i < |rows|
      && rows[i].companyId == company && rows[i].vehicleId == v && rows[i].imei == imei && Covers(rows[i], t)
  }

  /** An answer to "which device is on these vehicles": every vehicle with a carried IMEI, one it carried. */
  ghost predicate AnswersImeis(rows: seq<Assignment>, company: string, ids: seq<string>, t: Time, out: map<string, string>) {
    && (forall v :: v in out ==> v in ids && Carries(rows, company, v, out[v], t))
    && (forall v, imei :: v in ids && Carries(rows, company, v, imei, t) ==> v in out)
  }

  /** An answer to "which vehicle carried this device", asked across all companies. */
  ghost predicate AnswersVehicle(rows: seq<Assignment>, imei: string, t: Time, out: Option<string>) {
    && (out.Some? ==> exists c :: Carries(rows, c, out.value, imei, t))
    && (out.None? ==> forall c, v :: !Carries(rows, c, v, imei, t))
  }

  // ----- What an unambiguous history adds -----

  /** Rows in force together on one line are one row. */
  lemma OneRowInForce(rows: seq<Assignment>, i: nat, j: nat, t: Time)
    requires Unambiguous(rows) && i < |rows| && j < |rows| && SameLine(rows[i], rows[j]) && Covers(rows[i], t) && Covers(rows[j], t)
    ensures i == j
  {
    assert SameLine(rows[j], rows[i]);
  }

  lemma ImeiMeansGps(db: Db, i: nat)
    requires RegisterInv(db) && i < |db.assignments| && db.assignments[i].imei != ""
    ensures db.assignments[i].kind == Gps && db.assignments[i].vehicleId in db.vehicles
    ensures db.assignments[i].companyId == db.vehicles[db.assignments[i].vehicleId].companyId
  {
    assert RowSound(db, db.assignments[i]);
    assert IdentityStored(db.trackers[db.assignments[i].trackerId]);
  }

  /** At any instant a vehicle carries one IMEI and an IMEI one vehicle. */
  lemma CarriesIsOneToOne(db: Db, c: string, v: string, imei: string, c': string, v': string, imei': string, t: Time)
    requires RegisterInv(db) && Unambiguous(db.assignments)
    requires Carries(db.assignments, c, v, imei, t) && Carries(db.assignments, c', v', imei', t)
    ensures v == v' <==> imei == imei'
    ensures v == v' ==> c == c'
  {
    var rows := db.assignments;
    var i :| 0 <= i < |rows| && rows[i].companyId == c && rows[i].vehicleId == v && rows[i].imei == imei && Covers(rows[i], t);
    var j :| 0 <= j < |rows| && rows[j].companyId == c' && rows[j].vehicleId == v' && rows[j].imei == imei' && Covers(rows[j], t);
    ImeiMeansGps(db, i);
    ImeiMeansGps(db, j);
    if SameLine(rows[i], rows[j]) { OneRowInForce(rows, i, j, t); }
  }

  /** The answer does not depend on the order the database returns rows in: there is only one. */
  lemma ImeisAreDetermined(db: Db, company: string, ids: seq<string>, t: Time, a: map<string, string>, b: map<string, string>)
    requires RegisterInv(db) && Unambiguous(db.assignments)
    requires AnswersImeis(db.assignments, company, ids, t, a) && AnswersImeis(db.assignments, company, ids, t, b)
    ensures a == b
  {
    forall v | v in a ensures v in b && a[v] == b[v] {
      CarriesIsOneToOne(db, company, v, a[v], company, v, b[v], t);
    }
    forall v | v in b ensures v in a { }
  }

  /** The two point queries are each other's inverse. */
  lemma PointQueriesAreInverse(db: Db, v: string, imei: string, ids: seq<string>, t: Time, out: map<string, string>, back: Option<string>)
    requires RegisterInv(db) && Unambiguous(db.assignments) && v in db.vehicles && v in ids
    requires AnswersImeis(db.assignments, db.vehicles[v].companyId, ids, t, out)
    requires AnswersVehicle(db.assignments, imei, t, back)
    ensures (v in out && out[v] == imei) <==> back == Some(v)
  {
    var rows, company := db.assignments, db.vehicles[v].companyId;
    if v in out && out[v] == imei {
      assert Carries(rows, company, v, imei, t);
      var c :| Carries(rows, c, back.value, imei, t);
      CarriesIsOneToOne(db, company, v, imei, c, back.value, imei, t);
    }
    if back == Some(v) {
      var c :| Carries(rows, c, v, imei, t);
      var i :| 0 <= i < |rows| && rows[i].companyId == c && rows[i].vehicleId == v && rows[i].imei == imei && Covers(rows[i], t);
      assert RowSound(db, rows[i]);
      assert Carries(rows, company, v, imei, t);
      CarriesIsOneToOne(db, company, v, imei, company, v, out[v], t);
    }
  }

  /** Nothing recorded lies after this instant. */
  ghost predicate Settled(rows: seq<Assignment>, now: Time) {
    forall i :: 0 <= i < |rows| ==> rows[i].fittedAt <= now && (rows[i].unfittedAt.Some? ==> rows[i].unfittedAt.value <= now)
  }

  /** A row in force now is an open one. */
  lemma CarriedNowIsMounted(db: Db, v: string, imei: string, now: Time)
    requires RegisterInv(db) && Settled(db.assignments, now) && v in db.vehicles
    requires Carries(db.assignments, db.vehicles[v].companyId, v, imei, now)
    ensures exists t :: t in db.trackers && OnBoard(db.assignments, t, v) && db.trackers[t].imei == imei
  {
    var rows := db.assignments;
    var i :| 0 <= i < |rows| && rows[i].vehicleId == v && rows[i].imei == imei && Covers(rows[i], now);
    ImeiMeansGps(db, i);
    assert RowSound(db, rows[i]);
    assert Mounts(rows[i], rows[i].trackerId, v);
  }

  lemma MountedIsCarriedNow(db: Db, t: string, v: string, now: Time)
    requires RegisterInv(db) && Settled(db.assignments, now) && v in db.vehicles && OnBoard(db.assignments, t, v)
    ensures t in db.trackers && Carries(db.assignments, db.vehicles[v].companyId, v, db.trackers[t].imei, now)
  {
    var rows := db.assignments;
    var i :| 0 <= i < |rows| && Mounts(rows[i], t, v);
    assert RowSound(db, rows[i]) && IdentityStored(db.trackers[t]);
    assert |rows[i].imei| == 15;
    assert Covers(rows[i], now);
  }

  /** The vehicle's own copy of its device says what the history says about now. */
  lemma CopyAgreesWithHistory(db: Db, v: string, ids: seq<string>, now: Time, out: map<string, string>)
    requires RegisterInv(db) && FullAgreement(db) && Settled(db.assignments, now) && v in db.vehicles && v in ids
    requires AnswersImeis(db.assignments, db.vehicles[v].companyId, ids, now, out)
    ensures v in out <==> db.vehicles[v].trackerId.Some?
    ensures v in out ==> db.vehicles[v].trackerId.value in db.trackers && out[v] == db.trackers[db.vehicles[v].trackerId.value].imei
  {
    if v in out {
      CarriedNowIsMounted(db, v, out[v], now);
      var t :| t in db.trackers && OnBoard(db.assignments, t, v) && db.trackers[t].imei == out[v];
      assert Agree(db, t, v);
    }
    if db.vehicles[v].trackerId.Some? {
      assert Agree(db, db.vehicles[v].trackerId.value, v);
      MountedIsCarriedNow(db, db.vehicles[v].trackerId.value, v, now);
    }
  }

  // ----- Windows -----

  datatype Period = Period(imei: string, vehicleId: string, fittedAt: Time, unfittedAt: Option<Time>)

  function PeriodOf(a: Assignment): Period {
    Period(a.imei, a.vehicleId, a.fittedAt, a.unfittedAt)
  }

  predicate InForce(p: Period, t: Time) {
    p.fittedAt <= t && (p.unfittedAt.None? || t < p.unfittedAt.value)
  }

  /** The rows a window asks for; no vehicle means the whole company. */
  predicate Overlaps(a: Assignment, company: string, vehicle: string, from: Time, to: Time) {
    && a.companyId == company && (vehicle == "" || a.vehicleId == vehicle)
    && a.fittedAt <= to && (a.unfittedAt.None? || from < a.unfittedAt.value)
  }

  function Found(rows: seq<Assignment>, company: string, vehicle: string, from: Time, to: Time): seq<Assignment> {
    if rows == [] then []
    else
      var rest := Found(rows[..|rows| - 1], company, vehicle, from, to);
      if Overlaps(rows[|rows| - 1], company, vehicle, from, to) then rest + [rows[|rows| - 1]] else rest
  }

  /** Dashcams have no IMEI and are left out. */
  function Tracked(rows: seq<Assignment>): seq<Period> {
    if rows == [] then []
    else
      var rest := Tracked(rows[..|rows| - 1]);
      if rows[|rows| - 1].imei == "" then rest else rest + [PeriodOf(rows[|rows| - 1])]
  }

  /** A result of the windowed query over some order of the matching rows. */
  ghost predicate AnswersPeriods(rows: seq<Assignment>, company: string, vehicle: string, from: Time, to: Time, out: seq<Period>) {
    exists cursor :: multiset(cursor) == multiset(Found(rows, company, vehicle, from, to)) && out == Tracked(cursor)
  }

  lemma {:induction false} FoundExactly(rows: seq<Assignment>, company: string, vehicle: string, from: Time, to: Time)
    ensures forall a :: a in Found(rows, company, vehicle, from, to) <==> a in rows && Overlaps(a, company, vehicle, from, to)
  {
    if rows != [] {
      FoundExactly(rows[..|rows| - 1], company, vehicle, from, to);
      assert forall a :: a in rows <==> a in rows[..|rows| - 1] || a == rows[|rows| - 1];
    }
  }

  lemma {:induction false} TrackedExactly(rows: seq<Assignment>)
    ensures forall p :: p in Tracked(rows) <==> exists a :: a in rows && a.imei != "" && PeriodOf(a) == p
  {
    if rows != [] {
      TrackedExactly(rows[..|rows| - 1]);
      assert forall a :: a in rows <==> a in rows[..|rows| - 1] || a == rows[|rows| - 1];
    }
  }

  lemma AnsweredExactly(rows: seq<Assignment>, company: string, vehicle: string, from: Time, to: Time, out: seq<Period>)
    requires AnswersPeriods(rows, company, vehicle, from, to, out)
    ensures forall p :: p in out <==> exists a :: a in rows && Overlaps(a, company, vehicle, from, to) && a.imei != "" && PeriodOf(a) == p
  {
    var cursor :| multiset(cursor) == multiset(Found(rows, company, vehicle, from, to)) && out == Tracked(cursor);
    FoundExactly(rows, company, vehicle, from, to);
    TrackedExactly(cursor);
    assert forall a :: a in cursor <==> a in multiset(cursor);
    assert forall a :: a in Found(rows, company, vehicle, from, to) <==> a in multiset(cursor);
  }

  /**
   * The window refines the instant: at every instant of the window, the periods in force are
   * exactly what the point query's rows say is carried.
   */
  lemma WindowRefinesPoint(rows: seq<Assignment>, company: string, vehicle: string, from: Time, to: Time, out: seq<Period>,
                           t: Time, v: string, imei: string)
    requires AnswersPeriods(rows, company, vehicle, from, to, out)
    requires from <= t <= to && (vehicle == "" || v == vehicle)
    ensures (exists p :: p in out && p.vehicleId == v && p.imei == imei && InForce(p, t)) <==> Carries(rows, company, v, imei, t)
  {
    AnsweredExactly(rows, company, vehicle, from, to, out);
    if p: Period :| p in out && p.vehicleId == v && p.imei == imei && InForce(p, t) {
      var a: Assignment :| a in rows && Overlaps(a, company, vehicle, from, to) && a.imei != "" && PeriodOf(a) == p;
      var i :| 0 <= i < |rows| && rows[i] == a;
      assert Covers(rows[i], t);
    }
    if Carries(rows, company, v, imei, t) {
      var i :| 0 <= i < |rows| && rows[i].companyId == company && rows[i].vehicleId == v && rows[i].imei == imei && Covers(rows[i], t);
      assert rows[i] in rows && Overlaps(rows[i], company, vehicle, from, to);
      assert PeriodOf(rows[i]) in out && InForce(PeriodOf(rows[i]), t);
    }
  }

  function OfVehicle(ps: seq<Period>, v: string): seq<Period> {
    if ps == [] then []
    else
      var rest := OfVehicle(ps[..|ps| - 1], v);
      if ps[|ps| - 1].vehicleId == v then rest + [ps[|ps| - 1]] else rest
  }

  function Once(a: Assignment, p: Period): nat {
    if a.imei != "" && PeriodOf(a) == p then 1 else 0
  }

  /** How often a period comes out of some rows. */
  function Count(rows: seq<Assignment>, p: Period): nat {
    if rows == [] then 0 else Count(rows[..|rows| - 1], p) + Once(rows[|rows| - 1], p)
  }

  lemma {:induction false} CountOfTracked(rows: seq<Assignment>, p: Period)
    ensures multiset(Tracked(rows))[p] == Count(rows, p)
  {
    if rows != [] { CountOfTracked(rows[..|rows| - 1], p); }
  }

  lemma {:induction false} CountSplits(rows: seq<Assignment>, k: nat, p: Period)
    requires k < |rows|
    ensures Count(rows, p) == Count(rows[..k] + rows[k + 1..], p) + Once(rows[k], p)
  {
    var last := |rows| - 1;
    if k == last {
      assert rows[..k] + rows[k + 1..] == rows[..last];
    } else {
      var head := rows[..last];
      CountSplits(head, k, p);
      var gone := rows[..k] + rows[k + 1..];
      assert gone[..|gone| - 1] == head[..k] + head[k + 1..] && gone[|gone| - 1] == rows[last];
    }
  }

  lemma OneSetAside(rows: seq<Assignment>, k: nat)
    requires k < |rows|
    ensures multiset(rows) == multiset(rows[..k] + rows[k + 1..]) + multiset{rows[k]}
  {
    assert rows == rows[..k] + [rows[k]] + rows[k + 1..];
  }

  lemma Cancel(a: multiset<Assignment>, b: multiset<Assignment>, c: multiset<Assignment>)
    requires a + c == b + c
    ensures a == b
  {
    assert a == (a + c) - c && b == (b + c) - c;
  }

  lemma OneLessEach(xs: seq<Assignment>, ys: seq<Assignment>, k: nat)
    requires multiset(xs) == multiset(ys) && |xs| > 0 && k < |ys| && ys[k] == xs[|xs| - 1]
    ensures multiset(xs[..|xs| - 1]) == multiset(ys[..k] + ys[k + 1..])
  {
    var last := |xs| - 1;
    OneSetAside(xs, last);
    OneSetAside(ys, k);
    assert xs[..last] + xs[last + 1..] == xs[..last];
    Cancel(multiset(xs[..last]), multiset(ys[..k] + ys[k + 1..]), multiset{ys[k]});
  }

  /** Reordering rows does not change how often a period comes out. */
  lemma {:induction false} CountIgnoresOrder(xs: seq<Assignment>, ys: seq<Assignment>, p: Period)
    requires multiset(xs) == multiset(ys)
    ensures Count(xs, p) == Count(ys, p)
  {
    if xs == [] {
      assert |ys| == 0 by { assert |multiset(xs)| == |multiset(ys)|; }
    } else {
      var last := xs[|xs| - 1];
      assert last in multiset(ys);
      var k :| 0 <= k < |ys| && ys[k] == last;
      var less := ys[..k] + ys[k + 1..];
      OneLessEach(xs, ys, k);
      CountIgnoresOrder(xs[..|xs| - 1], less, p);
      CountSplits(ys, k, p);
    }
  }

  lemma {:induction false} CountOfFound(rows: seq<Assignment>, company: string, v: string, from: Time, to: Time, p: Period)
    requires v != ""
    ensures Count(Found(rows, company, v, from, to), p) == if p.vehicleId == v then Count(Found(rows, company, "", from, to), p) else 0
  {
    if rows != [] {
      CountOfFound(rows[..|rows| - 1], company, v, from, to, p);
      var last := rows[|rows| - 1];
      var one, all := Found(rows[..|rows| - 1], company, v, from, to), Found(rows[..|rows| - 1], company, "", from, to);
      assert (one + [last])[..|one|] == one && (all + [last])[..|all|] == all;
    }
  }

  lemma {:induction false} CountOfVehicle(ps: seq<Period>, v: string, p: Period)
    ensures multiset(OfVehicle(ps, v))[p] == if p.vehicleId == v then multiset(ps)[p] else 0
  {
    if ps != [] {
      CountOfVehicle(ps[..|ps| - 1], v, p);
      assert ps == ps[..|ps| - 1] + [ps[|ps| - 1]];
    }
  }

  /** Asking for the whole company and keeping one vehicle gives the periods of asking for that vehicle. */
  lemma CompanyCallCoversVehicle(rows: seq<Assignment>, company: string, v: string, from: Time, to: Time, all: seq<Period>, one: seq<Period>)
    requires v != ""
    requires AnswersPeriods(rows, company, "", from, to, all) && AnswersPeriods(rows, company, v, from, to, one)
    ensures multiset(OfVehicle(all, v)) == multiset(one)
  {
    var x :| multiset(x) == multiset(Found(rows, company, "", from, to)) && all == Tracked(x);
    var y :| multiset(y) == multiset(Found(rows, company, v, from, to)) && one == Tracked(y);
    forall p ensures multiset(OfVehicle(all, v))[p] == multiset(one)[p] {
      CountOfVehicle(all, v, p);
      CountOfTracked(x, p);
      CountOfTracked(y, p);
      CountIgnoresOrder(x, Found(rows, company, "", from, to), p);
      CountIgnoresOrder(y, Found(rows, company, v, from, to), p);
      CountOfFound(rows, company, v, from, to, p);
    }
  }

  // ----- The resolver -----

  /** What the point query's filter admits. */
  predicate Admitted(a: Assignment, company: string, ids: seq<string>, t: Time) {
    a.companyId == company && a.vehicleId in ids && Covers(a, t)
  }

  function AdmittedRows(rows: seq<Assignment>, company: string, ids: seq<string>, t: Time): seq<Assignment> {
    if rows == [] then []
    else
      var rest := AdmittedRows(rows[..|rows| - 1], company, ids, t);
      if Admitted(rows[|rows| - 1], company, ids, t) then rest + [rows[|rows| - 1]] else rest
  }

  lemma {:induction false} AdmittedExactly(rows: seq<Assignment>, company: string, ids: seq<string>, t: Time)
    ensures forall a :: a in AdmittedRows(rows, company, ids, t) <==> a in rows && Admitted(a, company, ids, t)
  {
    if rows != [] {
      AdmittedExactly(rows[..|rows| - 1], company, ids, t);
      assert forall a :: a in rows <==> a in rows[..|rows| - 1] || a == rows[|rows| - 1];
    }
  }

  /** The instant on whichever row of a vehicle and IMEI the database returns first. */
  type Pick = (string, string) -> Time

  /** A row meets the standing answer for its vehicle: it replaces it unless the row picked for that answer is later. */
  function Stands(standing: Option<string>, a: Assignment, pick: Pick): string {
    if standing.Some? && standing.value != a.imei && a.fittedAt < pick(a.vehicleId, standing.value) then standing.value else a.imei
  }

  /** The answers after the rows so far. */
  function Tally(cursor: seq<Assignment>, pick: Pick): map<string, string> {
    if cursor == [] then map[]
    else
      var rest := Tally(cursor[..|cursor| - 1], pick);
      var a := cursor[|cursor| - 1];
      if a.imei == "" then rest
      else rest[a.vehicleId := Stands(if a.vehicleId in rest then Some(rest[a.vehicleId]) else None, a, pick)]
  }

  /** Whatever the order and the picks, the tally names the vehicles with a tracked row, each by an IMEI of one. */
  lemma {:induction false} TallyNamesRows(cursor: seq<Assignment>, pick: Pick)
    ensures forall v :: v in Tally(cursor, pick) ==> exists a :: a in cursor && a.vehicleId == v && a.imei == Tally(cursor, pick)[v] && a.imei != ""
    ensures forall a :: a in cursor && a.imei != "" ==> a.vehicleId in Tally(cursor, pick)
  {
    if cursor != [] {
      TallyNamesRows(cursor[..|cursor| - 1], pick);
      assert forall a :: a in cursor <==> a in cursor[..|cursor| - 1] || a == cursor[|cursor| - 1];
    }
  }

  lemma TallyAnswers(rows: seq<Assignment>, company: string, ids: seq<string>, t: Time, cursor: seq<Assignment>, pick: Pick)
    requires multiset(cursor) == multiset(AdmittedRows(rows, company, ids, t))
    ensures AnswersImeis(rows, company, ids, t, Tally(cursor, pick))
  {
    AdmittedExactly(rows, company, ids, t);
    TallyNamesRows(cursor, pick);
    var out := Tally(cursor, pick);
    assert forall a :: a in cursor <==> a in multiset(cursor);
    assert forall a :: a in AdmittedRows(rows, company, ids, t) <==> a in multiset(cursor);
    forall v | v in out ensures v in ids && Carries(rows, company, v, out[v], t) {
      var a: Assignment :| a in cursor && a.vehicleId == v && a.imei == out[v] && a.imei != "";
      var i :| 0 <= i < |rows| && rows[i] == a;
    }
    forall v, imei | v in ids && Carries(rows, company, v, imei, t) ensures v in out {
      var i :| 0 <= i < |rows| && rows[i].companyId == company && rows[i].vehicleId == v && rows[i].imei == imei && Covers(rows[i], t);
      assert rows[i] in cursor;
    }
  }

  /** Some row of the vehicle and IMEI was fitted at this instant. */
  ghost predicate HasRow(rows: seq<Assignment>, v: string, imei: string, at: Time) {
    exists r :: r in rows && r.vehicleId == v && r.imei == imei && r.fittedAt == at
  }

  /** The database picks among the rows there are. */
  ghost predicate Picks(rows: seq<Assignment>, pick: Pick) {
    forall r :: r in rows ==> HasRow(rows, r.vehicleId, r.imei, pick(r.vehicleId, r.imei))
  }

  /** Text in byte order. */
  predicate TextLess(a: string, b: string) {
    b != "" && (a == "" || a[0] < b[0] || (a[0] == b[0] && TextLess(a[1..], b[1..])))
  }

  /** By vehicle, then by time. */
  predicate InOrder(v: string, at: Time, v': string, at': Time) {
    TextLess(v, v') || (v == v' && at <= at')
  }

  class DeviceResolver {
    const assignments: seq<Assignment>

    constructor (assignments: seq<Assignment>)
      ensures this.assignments == assignments
    {
      this.assignments := assignments;
    }

    /** When the device was fitted to the vehicle, by whichever row of the two the database comes to; nothing when there is none. */
    method FittedAtOf(vehicle: string, imei: string, pick: Pick) returns (at: Option<Time>)
      requires Picks(assignments, pick)
      ensures at.None? <==> forall a :: a in assignments ==> a.vehicleId != vehicle || a.imei != imei
      ensures at.Some? ==> at.value == pick(vehicle, imei) && HasRow(assignments, vehicle, imei, at.value)
    {
      if a: Assignment :| a in assignments && a.vehicleId == vehicle && a.imei == imei { return Some(pick(vehicle, imei)); }
      return None;
    }

    /** The devices on some vehicles at an instant, for any order the cursor returns the rows in. */
    method IMEIsAt(company: string, ids: seq<string>, t: Time, cursor: seq<Assignment>, pick: Pick) returns (out: map<string, string>)
      requires multiset(cursor) == multiset(AdmittedRows(assignments, company, ids, t)) && Picks(assignments, pick)
      ensures AnswersImeis(assignments, company, ids, t, out)
      ensures out == Tally(cursor, pick)
    {
      TallyAnswers(assignments, company, ids, t, cursor, pick);
      out := map[];
      if ids == [] {
        assert forall v :: v !in Tally(cursor, pick);
        return;
      }
      for i := 0 to |cursor|
        invariant out == Tally(cursor[..i], pick)
      {
        var a := cursor[i];
        assert cursor[..i + 1][..i] == cursor[..i];
        if a.imei == "" { continue; }
        if a.vehicleId in out && out[a.vehicleId] != a.imei {
          StandingHasRow(company, ids, t, cursor, i, pick, a.vehicleId);
          var prev := FittedAtOf(a.vehicleId, out[a.vehicleId], pick);
          if prev.Some? && a.fittedAt < prev.value {
            assert out == out[a.vehicleId := out[a.vehicleId]];
            continue;
          }
        }
        out := out[a.vehicleId := a.imei];
      }
      assert cursor[..|cursor|] == cursor;
    }

    /** The standing answer always has a row, so the comparison is always made. */
    lemma StandingHasRow(company: string, ids: seq<string>, t: Time, cursor: seq<Assignment>, i: nat, pick: Pick, v: string)
      requires multiset(cursor) == multiset(AdmittedRows(assignments, company, ids, t)) && i <= |cursor|
      requires v in Tally(cursor[..i], pick)
      ensures exists a :: a in assignments && a.vehicleId == v && a.imei == Tally(cursor[..i], pick)[v]
    {
      TallyNamesRows(cursor[..i], pick);
      AdmittedExactly(assignments, company, ids, t);
      var a: Assignment :| a in cursor[..i] && a.vehicleId == v && a.imei == Tally(cursor[..i], pick)[v];
      assert a in multiset(cursor);
    }

    /** Any one row the filter admits; a dashcam row has no IMEI field, so no question matches it. */
    method VehicleAt(imei: string, t: Time) returns (out: Option<string>)
      ensures AnswersVehicle(assignments, imei, t, out)
    {
      if a: Assignment :| a in assignments && imei != "" && a.imei == imei && Covers(a, t) {
        var i :| 0 <= i < |assignments| && assignments[i] == a;
        assert Carries(assignments, a.companyId, a.vehicleId, imei, t);
        return Some(a.vehicleId);
      }
      return None;
    }

    /** Any order of the rows found yields the overlapping tracked stretches, and no others. */
    lemma PeriodsExactly(company: string, vehicle: string, from: Time, to: Time, cursor: seq<Assignment>)
      requires multiset(cursor) == multiset(Found(assignments, company, vehicle, from, to))
      ensures forall p :: p in Tracked(cursor) <==> exists a ::
                a in assignments && p == Period(a.imei, a.vehicleId, a.fittedAt, a.unfittedAt) && a.imei != ""
                && a.companyId == company && (vehicle == "" || a.vehicleId == vehicle)
                && a.fittedAt <= to && (a.unfittedAt.Some? ==> from < a.unfittedAt.value)
    {
      AnsweredExactly(assignments, company, vehicle, from, to, Tracked(cursor));
    }

    /** The stretches of a window, in the order of the sorted cursor. */
    method PeriodsFor(company: string, vehicle: string, from: Time, to: Time, cursor: seq<Assignment>) returns (out: seq<Period>)
      requires multiset(cursor) == multiset(Found(assignments, company, vehicle, from, to))
      requires forall i, j :: 0 <= i < j < |cursor| ==> InOrder(cursor[i].vehicleId, cursor[i].fittedAt, cursor[j].vehicleId, cursor[j].fittedAt)
      ensures AnswersPeriods(assignments, company, vehicle, from, to, out)
      ensures forall p :: p in out <==> exists a ::
                a in assignments && p == Period(a.imei, a.vehicleId, a.fittedAt, a.unfittedAt) && a.imei != ""
                && a.companyId == company && (vehicle == "" || a.vehicleId == vehicle)
                && a.fittedAt <= to && (a.unfittedAt.Some? ==> from < a.unfittedAt.value)
      ensures forall i, j :: 0 <= i < j < |out| ==> InOrder(out[i].vehicleId, out[i].fittedAt, out[j].vehicleId, out[j].fittedAt)
    {
      out := [];
      ghost var at := [];
      for i := 0 to |cursor|
        invariant out == Tracked(cursor[..i]) && |at| == |out|
        invariant forall k :: 0 <= k < |out| ==> 0 <= at[k] < i && out[k] == PeriodOf(cursor[at[k]])
        invariant forall k, l :: 0 <= k < l < |out| ==> at[k] < at[l]
      {
        assert cursor[..i + 1][..i] == cursor[..i];
        if cursor[i].imei == "" { continue; }
        out := out + [PeriodOf(cursor[i])];
        at := at + [i];
      }
      assert cursor[..|cursor|] == cursor;
      PeriodsExactly(company, vehicle, from, to, cursor);
    }
  }
}
