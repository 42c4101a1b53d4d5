/** The fitting history as intervals: when it says one thing about every instant. */
module History {
  import opened Wrappers
  import opened Records
  import opened Registry
  import opened RegistryFrames
  import opened Fitting

  /** The row is in force at an instant: fitted by then and not yet removed. */
  predicate Covers(a: Assignment, t: Time) {
    a.fittedAt <= t && (a.unfittedAt.None? || t < a.unfittedAt.value)
  }

  /** Two rows that must not be in force together: one IMEI, or two trackers on one vehicle. */
  predicate SameLine(a: Assignment, b: Assignment) {
    (a.imei != "" && a.imei == b.imei) || (a.kind == Gps && b.kind == Gps && a.vehicleId == b.vehicleId)
  }

  ghost predicate Apart(a: Assignment, b: Assignment) {
    forall t :: !(Covers(a, t) && Covers(b, t))
  }

  ghost predicate Unambiguous(rows: seq<Assignment>) {
    forall i, j :: 0 <= i < j < |rows| && SameLine(rows[i], rows[j]) ==> Apart(rows[i], rows[j])
  }

  /** Closing an open row only takes instants away from it, whenever it is closed. */
  lemma ClosingKeepsUnambiguous(rows: seq<Assignment>, rows': seq<Assignment>)
    requires Unambiguous(rows) && OnlyCloses(rows, rows')
    ensures Unambiguous(rows')
  {
    forall i, j | 0 <= i < j < |rows'| && SameLine(rows'[i], rows'[j]) ensures Apart(rows'[i], rows'[j]) {
      assert SameLine(rows[i], rows[j]);
      forall t ensures !(Covers(rows'[i], t) && Covers(rows'[j], t)) {
        assert Covers(rows'[i], t) ==> Covers(rows[i], t);
        assert Covers(rows'[j], t) ==> Covers(rows[j], t);
      }
    }
  }

  /** No row in force at some instant on the new row's lines ends after the new one begins. */
  ghost predicate BeginsAfter(rows: seq<Assignment>, row: Assignment) {
    forall i :: 0 <= i < |rows| && SameLine(rows[i], row) && rows[i].unfittedAt.Some? ==>
      rows[i].unfittedAt.value <= row.fittedAt || rows[i].unfittedAt.value <= rows[i].fittedAt
  }

  /** Open rows on the lines of a fitting are the ones the fitting closes. */
  lemma OpenLinesAreVacated(db: Db, p: Plan, i: nat)
    requires RegisterInv(db) && PlanFor(db, p) && i < |db.assignments|
    requires SameLine(db.assignments[i], p.row)
    ensures !Open(Vacated(db.assignments, p)[i])
    ensures Open(db.assignments[i]) ==> Vacated(db.assignments, p)[i].unfittedAt == Some(p.row.fittedAt)
  {
    VacatedIsFree(db, p);
    assert RowSound(db, db.assignments[i]);
    var a := db.assignments[i];
    if Open(a) && a.imei != "" && a.imei == p.row.imei {
      assert IdentityStored(db.trackers[a.trackerId]) && IdentityStored(db.trackers[p.tracker]);
      assert a.trackerId == p.tracker;
    }
  }

  /**
   * A fitting keeps the history unambiguous if and only if it does not begin before the end of
   * an earlier stretch of the same device or on the same vehicle. Closing what is open is never
   * the problem.
   */
  lemma FitKeepsHistoryExactly(db: Db, p: Plan)
    requires RegisterInv(db) && PlanFor(db, p) && Unambiguous(db.assignments)
    ensures Unambiguous(Vacated(db.assignments, p) + [p.row]) <==> BeginsAfter(db.assignments, p.row)
  {
    var rows, vacated := db.assignments, Vacated(db.assignments, p);
    var end := vacated + [p.row];
    VacatedIsFree(db, p);
    ClosingKeepsUnambiguous(rows, vacated);
    if BeginsAfter(rows, p.row) {
      forall i | 0 <= i < |rows| && SameLine(vacated[i], p.row) ensures Apart(vacated[i], p.row) {
        OpenLinesAreVacated(db, p, i);
      }
      forall i, j | 0 <= i < j < |end| && SameLine(end[i], end[j]) ensures Apart(end[i], end[j]) {
        if j < |rows| { assert SameLine(vacated[i], vacated[j]); }
      }
    } else {
      var i :| 0 <= i < |rows| && SameLine(rows[i], p.row) && rows[i].unfittedAt.Some?
        && rows[i].unfittedAt.value > p.row.fittedAt && rows[i].unfittedAt.value > rows[i].fittedAt;
      assert end[i] == rows[i] && end[|rows|] == p.row && SameLine(end[i], end[|rows|]);
      var t := if p.row.fittedAt > rows[i].fittedAt then p.row.fittedAt else rows[i].fittedAt;
      assert Covers(end[i], t) && Covers(end[|rows|], t);
    }
  }

  /** A fitting made in the order things happened. */
  ghost predicate Chronological(db: Db, op: Op) {
    op.OpFit? ==>
      var plan := FitPlan(db, op.company, op.id, op.fit, op.now);
      plan.Ok? ==> BeginsAfter(db.assignments, plan.value.row)
  }

  lemma FitKeepsHistory(db: Db, company: string, raw: string, input: FitInput, now: Time, how: Conditions)
    requires RegisterInv(db) && Unambiguous(db.assignments)
    requires var plan := FitPlan(db, company, raw, input, now); plan.Ok? ==> BeginsAfter(db.assignments, plan.value.row)
    ensures Unambiguous(Fit(db, company, raw, input, now, how).0.assignments)
  {
    var plan := FitPlan(db, company, raw, input, now);
    if plan.Ok? {
      var p := plan.value;
      PlanIsSound(db, company, raw, input, now);
      FitKeepsHistoryExactly(db, p);
      VacatedIsFree(db, p);
      WritesSpelledOut(db, p, Survivors(how, FitSize(p)));
      ClosingKeepsUnambiguous(db.assignments, Vacated(db.assignments, p));
      ClosingKeepsUnambiguous(db.assignments, CloseDevice(db.assignments, p.tracker, p.row.fittedAt));
    }
  }

  lemma UnfitKeepsHistory(db: Db, company: string, raw: string, at: Time, how: Conditions)
    requires Unambiguous(db.assignments)
    ensures Unambiguous(Unfit(db, company, raw, at, how).0.assignments)
  {
    var t := FindTracker(db, company, raw);
    if t.Some? { ClosingKeepsUnambiguous(db.assignments, CloseDevice(db.assignments, t.value, at)); }
  }

  lemma StepKeepsHistory(db: Db, op: Op)
    requires RegisterInv(db) && Unambiguous(db.assignments) && Chronological(db, op)
    ensures Unambiguous(Step(db, op).0.assignments)
  {
    match op
    case OpFit(c, id, input, now, how) => FitKeepsHistory(db, c, id, input, now, how);
    case OpUnfit(c, id, at, how) => UnfitKeepsHistory(db, c, id, at, how);
    case _ => StepFrame(db, op);
  }

  // ----- What history never forgets -----

  /** Devices stay what they are; rows stay where they are, saying what they said, except that an open one may be closed. */
  ghost predicate Remembers(db: Db, db': Db) {
    && (forall t :: t in db.trackers ==>
          && t in db'.trackers && db'.trackers[t].kind == db.trackers[t].kind
          && db'.trackers[t].deviceId == db.trackers[t].deviceId && db'.trackers[t].imei == db.trackers[t].imei)
    && |db.assignments| <= |db'.assignments|
    && OnlyCloses(db.assignments, db'.assignments[..|db.assignments|])
  }

  lemma RemembersIsTransitive(a: Db, b: Db, c: Db)
    requires Remembers(a, b) && Remembers(b, c)
    ensures Remembers(a, c)
  {
    forall i | 0 <= i < |a.assignments|
      ensures var (x, z) := (a.assignments[i], c.assignments[i]);
        z == x || (Open(x) && z == x.(unfittedAt := z.unfittedAt) && !Open(z))
    {
      assert b.assignments[..|a.assignments|][i] == b.assignments[i];
      assert c.assignments[..|b.assignments|][i] == c.assignments[i];
    }
  }

  lemma StepRemembers(db: Db, op: Op)
    requires IdentitiesStored(db.trackers)
    ensures Remembers(db, Step(db, op).0)
  {
    match op
    case OpFit(c, id, input, now, how) => FitRemembers(db, c, id, input, now, how);
    case OpUnfit(c, id, at, how) => UnfitRemembers(db, c, id, at, how);
    case OpUpdateTracker(c, id, input, staff) => UpdateRemembers(db, c, id, input, staff);
    case _ =>
      var db' := Step(db, op).0;
      StepFrame(db, op);
      assert db'.assignments[..|db.assignments|] == db.assignments;
  }

  lemma FitRemembers(db: Db, company: string, raw: string, input: FitInput, now: Time, how: Conditions)
    ensures Remembers(db, Fit(db, company, raw, input, now, how).0)
  {
    var plan := FitPlan(db, company, raw, input, now);
    if plan.Ok? {
      VacatingOnlyCloses(db.assignments, plan.value);
      WritesSpelledOut(db, plan.value, Survivors(how, FitSize(plan.value)));
    }
  }

  lemma UnfitRemembers(db: Db, company: string, raw: string, at: Time, how: Conditions)
    ensures Remembers(db, Unfit(db, company, raw, at, how).0)
  {
    var db' := Unfit(db, company, raw, at, how).0;
    UnfitEnds(db, company, raw, at, how);
    assert db'.assignments[..|db.assignments|] == db'.assignments;
  }

  lemma UpdateRemembers(db: Db, company: string, raw: string, input: TrackerInput, staff: bool)
    requires IdentitiesStored(db.trackers)
    ensures Remembers(db, UpdateTracker(db, company, raw, input, staff).0)
  {
    UpdateKeepsDevices(db, company, raw, input, staff);
    assert db.assignments[..|db.assignments|] == db.assignments;
  }
}
