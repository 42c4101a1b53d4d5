/** What fitting and taking off mean to the queries: the answers change from that instant on, and nowhere else. */
module DeviceEffects {
  import opened Records
  import opened Registry
  import opened Fitting
  import opened History
  import opened Devices

  predicate Says(a: Assignment, c: string, v: string, imei: string, t: Time) {
    a.companyId == c && a.vehicleId == v && a.imei == imei && Covers(a, t)
  }

  /** An ended stretch says so; the operations leave these as they are. */
  ghost predicate EndedSays(rows: seq<Assignment>, c: string, v: string, imei: string, t: Time) {
    imei != "" && exists i :: 0 <= i < |rows| && !Open(rows[i]) && Says(rows[i], c, v, imei, t)
  }

  /** One row before and after the closings of a fitting. */
  lemma VacatedRowSays(db: Db, p: Plan, i: nat, c: string, v: string, imei: string, t: Time)
    requires RegisterInv(db) && PlanFor(db, p) && p.row.kind == Gps
    requires i < |db.assignments| && imei != ""
    ensures Says(Vacated(db.assignments, p)[i], c, v, imei, t) <==>
            && Says(db.assignments[i], c, v, imei, t)
            && (t < p.row.fittedAt || !Open(db.assignments[i]) || (v != p.vehicle && imei != p.row.imei))
  {
    var a := db.assignments[i];
    VacatedIsFree(db, p);
    assert RowSound(db, a);
    if a.imei == imei && a.vehicleId == v {
      assert a.kind == Gps by { assert IdentityStored(db.trackers[a.trackerId]); }
      if v == p.vehicle || imei == p.row.imei {
        assert SameLine(a, p.row);
        OpenLinesAreVacated(db, p, i);
      } else {
        assert a.trackerId != p.tracker;
      }
    }
  }

  /**
   * A finished GPS fitting: from its instant on the vehicle carries the device, and neither of
   * the two carries or is carried otherwise, except where an ended stretch already said so;
   * before it, and for every other vehicle and device, the history answers as it did.
   */
  lemma FitRewritesFromThen(db: Db, p: Plan, c: string, v: string, imei: string, t: Time)
    requires RegisterInv(db) && PlanFor(db, p) && p.row.kind == Gps
    ensures Carries(FitWrites(db, p, 5).assignments, c, v, imei, t) <==>
            if t >= p.row.fittedAt && (v == p.vehicle || imei == p.row.imei)
            then (c == p.row.companyId && v == p.vehicle && imei == p.row.imei) || EndedSays(db.assignments, c, v, imei, t)
            else Carries(db.assignments, c, v, imei, t)
  {
    var rows, vacated := db.assignments, Vacated(db.assignments, p);
    var end := vacated + [p.row];
    WritesSpelledOut(db, p, 5);
    assert p.row.imei != "" by { assert RowSound(db, p.row) && IdentityStored(db.trackers[p.tracker]); }
    if imei != "" {
      forall i | 0 <= i < |rows|
        ensures Says(end[i], c, v, imei, t) <==>
                Says(rows[i], c, v, imei, t) && (t < p.row.fittedAt || !Open(rows[i]) || (v != p.vehicle && imei != p.row.imei))
      {
        VacatedRowSays(db, p, i, c, v, imei, t);
      }
      assert end[|rows|] == p.row;
      if i :| 0 <= i < |end| && Says(end[i], c, v, imei, t) {
        assert i < |rows| ==> Says(rows[i], c, v, imei, t);
      }
      if i :| 0 <= i < |rows| && Says(rows[i], c, v, imei, t) && (t < p.row.fittedAt || (v != p.vehicle && imei != p.row.imei)) {
        assert Says(end[i], c, v, imei, t);
      }
      if i :| 0 <= i < |rows| && !Open(rows[i]) && Says(rows[i], c, v, imei, t) {
        assert Says(end[i], c, v, imei, t);
      }
    }
  }

  lemma UnfitRowSays(db: Db, tracker: string, at: Time, i: nat, c: string, v: string, imei: string, t: Time)
    requires RegisterInv(db) && tracker in db.trackers && !db.trackers[tracker].deleted && db.trackers[tracker].kind == Gps
    requires i < |db.assignments|
    ensures Says(CloseDevice(db.assignments, tracker, at)[i], c, v, imei, t) <==>
            Says(db.assignments[i], c, v, imei, t) && (t < at || !Open(db.assignments[i]) || imei != db.trackers[tracker].imei)
  {
    var a := db.assignments[i];
    assert RowSound(db, a) && IdentityStored(db.trackers[a.trackerId]) && IdentityStored(db.trackers[tracker]);
    if Open(a) && a.imei == db.trackers[tracker].imei { assert a.trackerId == tracker; }
  }

  /** Taking a GPS device off: from that instant on only an ended stretch carries it, and nothing else is answered differently. */
  lemma UnfitRewritesFromThen(db: Db, tracker: string, at: Time, c: string, v: string, imei: string, t: Time)
    requires RegisterInv(db) && tracker in db.trackers && !db.trackers[tracker].deleted && db.trackers[tracker].kind == Gps
    ensures Carries(UnfitWrites(db, tracker, at, 2).assignments, c, v, imei, t) <==>
            if t >= at && imei == db.trackers[tracker].imei then EndedSays(db.assignments, c, v, imei, t)
            else Carries(db.assignments, c, v, imei, t)
  {
    var rows := db.assignments;
    var rows' := UnfitWrites(db, tracker, at, 2).assignments;
    forall i | 0 <= i < |rows|
      ensures Says(rows'[i], c, v, imei, t) <==>
              Says(rows[i], c, v, imei, t) && (t < at || !Open(rows[i]) || imei != db.trackers[tracker].imei)
    {
      UnfitRowSays(db, tracker, at, i, c, v, imei, t);
    }
    if i :| 0 <= i < |rows'| && Says(rows'[i], c, v, imei, t) {
      assert Says(rows[i], c, v, imei, t);
    }
    if i :| 0 <= i < |rows| && !Open(rows[i]) && Says(rows[i], c, v, imei, t) {
      assert Says(rows'[i], c, v, imei, t);
    }
    if i :| 0 <= i < |rows| && Says(rows[i], c, v, imei, t) && (t < at || imei != db.trackers[tracker].imei) {
      assert Says(rows'[i], c, v, imei, t);
    }
  }

  /** No ended stretch of the vehicle or the device says anything about this instant. */
  ghost predicate Undisputed(rows: seq<Assignment>, v: string, imei: string, t: Time) {
    forall c, v', imei' :: v' == v || imei' == imei ==> !EndedSays(rows, c, v', imei', t)
  }

  /** Fit, as called: for an instant from then on that no ended stretch speaks for, the point query names the device for its vehicle alone. */
  lemma FittedIsAnswered(db: Db, company: string, raw: string, input: FitInput, now: Time, ids: seq<string>, t: Time, out: map<string, string>)
    requires RegisterInv(db) && FitPlan(db, company, raw, input, now).Ok?
    requires var p := FitPlan(db, company, raw, input, now).value;
      && p.row.kind == Gps && p.vehicle in ids && t >= p.row.fittedAt && Undisputed(db.assignments, p.vehicle, p.row.imei, t)
      && AnswersImeis(Fit(db, company, raw, input, now, ALL_WELL).0.assignments, company, ids, t, out)
    ensures var p := FitPlan(db, company, raw, input, now).value;
      && p.vehicle in out && out[p.vehicle] == db.trackers[p.tracker].imei
      && forall v :: v in out && v != p.vehicle ==> out[v] != db.trackers[p.tracker].imei
  {
    var p := FitPlan(db, company, raw, input, now).value;
    PlanIsSound(db, company, raw, input, now);
    FitRewritesFromThen(db, p, company, p.vehicle, p.row.imei, t);
    FitRewritesFromThen(db, p, company, p.vehicle, out[p.vehicle], t);
    forall v | v in out && v != p.vehicle ensures out[v] != p.row.imei {
      FitRewritesFromThen(db, p, company, v, out[v], t);
    }
  }

  /** A fitting made in the order things happened is undisputed from its instant on. */
  lemma ChronologicalIsUndisputed(db: Db, p: Plan, t: Time)
    requires RegisterInv(db) && PlanFor(db, p) && p.row.kind == Gps && BeginsAfter(db.assignments, p.row) && t >= p.row.fittedAt
    ensures Undisputed(db.assignments, p.vehicle, p.row.imei, t)
  {
    forall i | 0 <= i < |db.assignments| && !Open(db.assignments[i]) && db.assignments[i].imei != "" && Covers(db.assignments[i], t)
      ensures db.assignments[i].vehicleId != p.vehicle && db.assignments[i].imei != p.row.imei
    {
      assert RowSound(db, db.assignments[i]) && IdentityStored(db.trackers[db.assignments[i].trackerId]);
      assert !SameLine(db.assignments[i], p.row);
    }
  }
}
