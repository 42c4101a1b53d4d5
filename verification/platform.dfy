/** The whole service as one machine: register and reference lists over one database, in any interleaving. */
module Platform {
  import opened Wrappers
  import opened Text
  import opened Records
  import opened Registry
  import opened Catalog
  import opened CatalogWrites
  import opened CatalogAccepts
  import RegistryFrames
  import CatalogCache
  import opened Fitting
  import opened History
  import opened Rules

  const EMPTY_DB := Db(map[], map[], map[], [], map[])

  function AfterAll(db: Db, acts: seq<Act>, env: CatalogCache.Env): Db
    decreases |acts|
  {
    if acts == [] then db else AfterAll(After(db, acts[0], env), acts[1..], env)
  }

  // ----- Each rule over whole runs -----

  /** The rule holds in every state of the run. */
  ghost predicate Always(rule: Rule, db: Db, acts: seq<Act>, env: CatalogCache.Env)
    decreases |acts|
  {
    Holds(rule, db) && (acts == [] || Always(rule, After(db, acts[0], env), acts[1..], env))
  }

  /** Every act of the run spares the rule where it is made. */
  ghost predicate AllSpare(rule: Rule, db: Db, acts: seq<Act>, env: CatalogCache.Env)
    decreases |acts|
  {
    acts == [] || (Spares(rule, db, acts[0]) && AllSpare(rule, After(db, acts[0], env), acts[1..], env))
  }

  /**
   * A rule holds in every state of a run, through any interleaving of operations, those cut off
   * part-way included, for exactly the runs whose acts spare that rule; what they do to the
   * other rules does not matter.
   */
  lemma {:induction false} RunKeepsExactly(rule: Rule, db: Db, acts: seq<Act>, env: CatalogCache.Env)
    requires Holds(rule, db)
    ensures Always(rule, db, acts, env) <==> AllSpare(rule, db, acts, env)
    ensures AllSpare(rule, db, acts, env) ==> Holds(rule, AfterAll(db, acts, env))
    decreases |acts|
  {
    if acts != [] {
      ActKeepsExactly(rule, db, acts[0], env);
      if Spares(rule, db, acts[0]) {
        RunKeepsExactly(rule, After(db, acts[0], env), acts[1..], env);
      } else {
        assert !Always(rule, After(db, acts[0], env), acts[1..], env);
      }
    }
  }

  /** The rules nothing can break. */
  predicate Unbreakable(rule: Rule) {
    rule.Devices? || rule.Homes? || rule.Twins? || rule.Names? || rule.Lists? || rule.Owners?
  }

  /**
   * In every run whatsoever: devices stay distinct and what they were registered as, plates and
   * chassis numbers stay unique, a vehicle's group stays one of its own company, list entries
   * stay as their write path leaves them, and what is private has an owner.
   */
  lemma {:induction false} EveryRunKeeps(rule: Rule, db: Db, acts: seq<Act>, env: CatalogCache.Env)
    requires Unbreakable(rule) && Holds(rule, db)
    ensures Holds(rule, AfterAll(db, acts, env))
    decreases |acts|
  {
    if acts != [] {
      ActKeepsExactly(rule, db, acts[0], env);
      EveryRunKeeps(rule, After(db, acts[0], env), acts[1..], env);
    }
  }

  /** The ids compared as text are spelled as stored. */
  ghost predicate WellSpelled(act: Act) {
    match act
    case Fleet(op) => Spelled(op)
    case Change(_, w) => w.WDelete? && w.kind == VEHICLE_GROUP ==> ObjectId(w.id) == Some(w.id)
    case _ => true
  }

  /** With ids spelled as stored every rule is spared, but for custody, which is not a matter of spelling. */
  lemma {:induction false} WellSpelledRunSpares(rule: Rule, db: Db, acts: seq<Act>, env: CatalogCache.Env)
    requires rule != Custody && forall i :: 0 <= i < |acts| ==> WellSpelled(acts[i])
    ensures AllSpare(rule, db, acts, env)
    decreases |acts|
  {
    if acts != [] { WellSpelledRunSpares(rule, After(db, acts[0], env), acts[1..], env); }
  }

  lemma EmptyHolds(rule: Rule)
    ensures Holds(rule, EMPTY_DB)
  {
  }

  /** The ids a run mints for list entries are printed ones. */
  ghost predicate Mints(act: Act) {
    act.Change? && act.w.WCreate? ==> ObjectId(act.w.newId) == Some(act.w.newId)
  }

  lemma {:induction false} RunKeepsIdsPrinted(db: Db, acts: seq<Act>, env: CatalogCache.Env)
    requires IdsPrinted(db) && forall i :: 0 <= i < |acts| ==> Mints(acts[i])
    ensures IdsPrinted(AfterAll(db, acts, env))
    decreases |acts|
  {
    if acts != [] {
      ActKeepsIdsPrinted(db, acts[0], env);
      RunKeepsIdsPrinted(After(db, acts[0], env), acts[1..], env);
    }
  }

  lemma ActKeepsIdsPrinted(db: Db, act: Act, env: CatalogCache.Env)
    requires IdsPrinted(db) && Mints(act)
    ensures IdsPrinted(After(db, act, env))
  {
    if act.Fleet? {
      RegistryFrames.StepFrame(db, act.registry);
    } else if act.Change? {
      if Written(db, act.c, act.w).1.Refused? {
        RefusedWriteIsNothing(db, act.c, act.w);
      } else {
        var ref := WriteTouchesOneEntry(db, act.c, act.w);
        if act.w.WCreate? { CreateTouchesNewId(db, act.c, act.w); }
      }
    }
  }

  // ----- Tenants -----

  /**
   * After any run at all, whatever a company writes to the lists, every other company and the
   * shared scope get the same answers as before, and keep the same vehicles.
   */
  lemma TenantsNeverInterfere(acts: seq<Act>, env: CatalogCache.Env, c: Caller, w: Write, other: string,
                              kind: string, raw: string, parent: string, p: Params, cursor: Cursor, refs: seq<Ref>)
    requires !c.staff && other != c.company
    ensures var db := AfterAll(EMPTY_DB, acts, env);
            var (db', o) := (Written(db, c, w).0, Caller(other, false));
      && Get(db', kind, raw, o) == Get(db, kind, raw, o)
      && List(db', kind, o, parent, p, cursor) == List(db, kind, o, parent, p, cursor)
      && Resolve(db', other, refs) == Resolve(db, other, refs)
      && forall v :: v in db.vehicles && db.vehicles[v].companyId == other ==> v in db'.vehicles && db'.vehicles[v] == db.vehicles[v]
  {
    EmptyHolds(Homes);
    EveryRunKeeps(Homes, EMPTY_DB, acts, env);
    TenantsDoNotInterfere(AfterAll(EMPTY_DB, acts, env), c, w, other, kind, raw, parent, p, cursor, refs);
  }

  /** After any run at all, no two companies read the same customer, item or vehicle group. */
  lemma PrivateListsStayPrivate(acts: seq<Act>, env: CatalogCache.Env, kind: string, raw: string, a: string, b: string)
    requires Private(kind) && a != b
    ensures var db := AfterAll(EMPTY_DB, acts, env);
            Get(db, kind, raw, Caller(a, false)).Refused? || Get(db, kind, raw, Caller(b, false)).Refused?
  {
    EmptyHolds(Owners);
    EveryRunKeeps(Owners, EMPTY_DB, acts, env);
    PrivateEntriesAreOnes(AfterAll(EMPTY_DB, acts, env), kind, raw, a, b);
  }

  // ----- Agreement and history over whole runs -----

  ghost predicate Uncut(act: Act) {
    act.Fleet? ==> Whole(act.registry)
  }

  /** A run of whole operations that retires nothing fitted never sets a device and a vehicle at odds. */
  lemma {:induction false} RunKeepsAgreeing(db: Db, acts: seq<Act>, env: CatalogCache.Env)
    requires RegisterInv(db) && AllSpare(Fittings, db, acts, env) && forall i :: 0 <= i < |acts| ==> Uncut(acts[i])
    ensures forall t, v :: Agree(db, t, v) ==> Agree(AfterAll(db, acts, env), t, v)
    decreases |acts|
  {
    if acts != [] {
      var act := acts[0];
      ActKeepsExactly(Fittings, db, act, env);
      if act.Fleet? { StepKeepsAgreement(db, act.registry); }
      if act.Change? { ListWriteKeepsRegister(db, act.c, act.w); }
      RunKeepsAgreeing(After(db, act, env), acts[1..], env);
    }
  }

  /**
   * In every run that retires nothing fitted and whose operations all finish or are rolled back,
   * each vehicle names exactly the GPS device an open assignment puts on it.
   */
  lemma RunKeepsAgreement(acts: seq<Act>, env: CatalogCache.Env)
    requires AllSpare(Fittings, EMPTY_DB, acts, env) && forall i :: 0 <= i < |acts| ==> Uncut(acts[i])
    ensures FullAgreement(AfterAll(EMPTY_DB, acts, env))
  {
    EmptyHolds(Fittings);
    RunKeepsAgreeing(EMPTY_DB, acts, env);
  }

  /** Every fitting of the run was made in the order things happened. */
  ghost predicate ChronologicalRun(db: Db, acts: seq<Act>, env: CatalogCache.Env)
    decreases |acts|
  {
    acts == [] || ((acts[0].Fleet? ==> Chronological(db, acts[0].registry)) && ChronologicalRun(After(db, acts[0], env), acts[1..], env))
  }

  /** A chronological run leaves a history that says one thing about every instant. */
  lemma {:induction false} ChronologicalRunIsUnambiguous(db: Db, acts: seq<Act>, env: CatalogCache.Env)
    requires RegisterInv(db) && AllSpare(Fittings, db, acts, env)
    requires Unambiguous(db.assignments) && ChronologicalRun(db, acts, env)
    ensures Unambiguous(AfterAll(db, acts, env).assignments)
    decreases |acts|
  {
    if acts != [] {
      var act := acts[0];
      ActKeepsExactly(Fittings, db, act, env);
      if act.Fleet? { StepKeepsHistory(db, act.registry); }
      if act.Change? { ListWriteKeepsShape(db, act.c, act.w); }
      ChronologicalRunIsUnambiguous(After(db, act, env), acts[1..], env);
    }
  }

  lemma ActRemembers(db: Db, act: Act, env: CatalogCache.Env)
    requires IdentitiesStored(db.trackers)
    ensures Remembers(db, After(db, act, env))
  {
    if act.Fleet? {
      StepRemembers(db, act.registry);
    } else {
      if act.Change? { ListWriteKeepsShape(db, act.c, act.w); }
      assert After(db, act, env).assignments[..|db.assignments|] == db.assignments;
    }
  }

  /**
   * Nothing is forgotten: over any run at all a device keeps its kind and id, and every recorded
   * fitting keeps its place and its words, but for an open one being closed once.
   */
  lemma {:induction false} RunRemembers(db: Db, acts: seq<Act>, env: CatalogCache.Env)
    requires DevicesDistinct(db.trackers)
    ensures Remembers(db, AfterAll(db, acts, env))
    decreases |acts|
  {
    if acts == [] {
      assert db.assignments[..|db.assignments|] == db.assignments;
    } else {
      var next := After(db, acts[0], env);
      ActKeepsExactly(Devices, db, acts[0], env);
      ActRemembers(db, acts[0], env);
      RunRemembers(next, acts[1..], env);
      RemembersIsTransitive(db, next, AfterAll(db, acts, env));
    }
  }

  // ----- Crashes -----

  /** The pairs a fitting may set at odds when it is cut off: those of its device or its vehicle, and only for GPS. */
  ghost predicate Beside(p: Plan, t: string, v: string) {
    p.row.kind == Gps ==> t != p.tracker && v != p.vehicle
  }

  lemma CrashConfinesDamage(db: Db, company: string, raw: string, input: FitInput, now: Time, written: nat)
    requires RegisterInv(db) && FitPlan(db, company, raw, input, now).Ok?
    ensures var p := FitPlan(db, company, raw, input, now).value;
            var crashed := Fit(db, company, raw, input, now, Conditions(false, Some(written))).0;
            forall t, v :: Beside(p, t, v) ==> (Agree(crashed, t, v) <==> Agree(db, t, v))
  {
    var p := FitPlan(db, company, raw, input, now).value;
    PlanIsSound(db, company, raw, input, now);
    var n := Survivors(Conditions(false, Some(written)), FitSize(p));
    forall t, v | Beside(p, t, v) ensures Agree(FitWrites(db, p, n), t, v) <==> Agree(db, t, v) {
      FitLeavesOthersAlone(db, p, n, t, v);
    }
  }

  lemma FinishedFitSettles(db: Db, company: string, raw: string, input: FitInput, now: Time)
    requires RegisterInv(db) && FitPlan(db, company, raw, input, now).Ok?
    requires var p := FitPlan(db, company, raw, input, now).value; forall t, v :: Beside(p, t, v) ==> Agree(db, t, v)
    ensures FullAgreement(Fit(db, company, raw, input, now, ALL_WELL).0)
  {
    var p := FitPlan(db, company, raw, input, now).value;
    PlanIsSound(db, company, raw, input, now);
    var end := FitWrites(db, p, FitSize(p));
    assert end == Fit(db, company, raw, input, now, ALL_WELL).0;
    forall t, v ensures Agree(end, t, v) {
      if Beside(p, t, v) { FitLeavesOthersAlone(db, p, FitSize(p), t, v); } else { FitSettles(db, p, t, v); }
    }
  }

  /** A device keeps its kind, so a plan for it keeps its kind too. */
  lemma PlansKeepKind(db: Db, company: string, raw: string, input: FitInput, now: Time,
                      later: Db, company': string, raw': string, input': FitInput, now': Time)
    requires RegisterInv(db) && RegisterInv(later) && Remembers(db, later)
    requires FitPlan(db, company, raw, input, now).Ok? && FitPlan(later, company', raw', input', now').Ok?
    requires FitPlan(db, company, raw, input, now).value.tracker == FitPlan(later, company', raw', input', now').value.tracker
    ensures FitPlan(db, company, raw, input, now).value.row.kind == FitPlan(later, company', raw', input', now').value.row.kind
  {
    PlanIsSound(db, company, raw, input, now);
    PlanIsSound(later, company', raw', input', now');
    assert RowSound(db, FitPlan(db, company, raw, input, now).value.row);
    assert RowSound(later, FitPlan(later, company', raw', input', now').value.row);
  }

  /** What lies between a first fitting and a later state keeps the register, the records and every agreement. */
  lemma Interlude(db: Db, op: Op, mid: Db, acts: seq<Act>, env: CatalogCache.Env, later: Db)
    requires RegisterInv(db) && (op.OpFit? || op.OpUnfit?) && mid == Step(db, op).0 && later == AfterAll(mid, acts, env)
    requires AllSpare(Fittings, mid, acts, env) && forall i :: 0 <= i < |acts| ==> Uncut(acts[i])
    ensures RegisterInv(later) && Remembers(db, later)
    ensures forall t, v :: Agree(mid, t, v) ==> Agree(later, t, v)
  {
    StepKeepsRegisterExactly(db, op);
    StepRemembers(db, op);
    RunKeepsExactly(Fittings, mid, acts, env);
    RunRemembers(mid, acts, env);
    RemembersIsTransitive(db, mid, later);
    RunKeepsAgreeing(mid, acts, env);
  }

  /** Two plans for the same device on the same vehicle. */
  predicate SameFitting(a: Reply<Plan>, b: Reply<Plan>) {
    a.Ok? && b.Ok? && a.value.tracker == b.value.tracker && a.value.vehicle == b.value.vehicle
  }

  lemma CrashInterlude(db: Db, company: string, raw: string, input: FitInput, now: Time, how: Conditions, crashed: Db,
                       acts: seq<Act>, env: CatalogCache.Env, later: Db)
    requires RegisterInv(db) && crashed == Fit(db, company, raw, input, now, how).0 && later == AfterAll(crashed, acts, env)
    requires AllSpare(Fittings, crashed, acts, env) && forall i :: 0 <= i < |acts| ==> Uncut(acts[i])
    ensures RegisterInv(later) && Remembers(db, later)
    ensures forall t, v :: Agree(crashed, t, v) ==> Agree(later, t, v)
  {
    Interlude(db, OpFit(company, raw, input, now, how), crashed, acts, env, later);
  }

  /** After a crash and whatever whole acts follow, every device and vehicle beside the plan agree. */
  lemma BesideAgrees(db: Db, company: string, raw: string, input: FitInput, now: Time, written: nat, crashed: Db,
                     acts: seq<Act>, env: CatalogCache.Env, later: Db)
    requires RegisterInv(db) && FullAgreement(db) && FitPlan(db, company, raw, input, now).Ok?
    requires crashed == Fit(db, company, raw, input, now, Conditions(false, Some(written))).0
    requires later == AfterAll(crashed, acts, env)
    requires AllSpare(Fittings, crashed, acts, env) && forall i :: 0 <= i < |acts| ==> Uncut(acts[i])
    ensures RegisterInv(later) && Remembers(db, later)
    ensures forall t, v :: Beside(FitPlan(db, company, raw, input, now).value, t, v) ==> Agree(later, t, v)
  {
    CrashInterlude(db, company, raw, input, now, Conditions(false, Some(written)), crashed, acts, env, later);
    CrashConfinesDamage(db, company, raw, input, now, written);
    var p := FitPlan(db, company, raw, input, now).value;
    forall t, v | Beside(p, t, v) ensures Agree(later, t, v) { assert Agree(db, t, v); }
  }

  /**
   * A crash is repaired later: a fitting cut off after any of its writes, then any run of other
   * operations, then a finished fitting of the same device on the same vehicle, by whoever and
   * at whatever instant, and every vehicle names its open assignment's device again.
   */
  lemma CrashIsRepairedLater(db: Db, company: string, raw: string, input: FitInput, now: Time, written: nat, crashed: Db,
                             acts: seq<Act>, env: CatalogCache.Env, later: Db,
                             company': string, raw': string, input': FitInput, now': Time)
    requires RegisterInv(db) && FullAgreement(db)
    requires crashed == Fit(db, company, raw, input, now, Conditions(false, Some(written))).0
    requires later == AfterAll(crashed, acts, env)
    requires AllSpare(Fittings, crashed, acts, env) && forall i :: 0 <= i < |acts| ==> Uncut(acts[i])
    requires SameFitting(FitPlan(db, company, raw, input, now), FitPlan(later, company', raw', input', now'))
    ensures FullAgreement(Fit(later, company', raw', input', now', ALL_WELL).0)
  {
    BesideAgrees(db, company, raw, input, now, written, crashed, acts, env, later);
    PlansKeepKind(db, company, raw, input, now, later, company', raw', input', now');
    SameBeside(FitPlan(db, company, raw, input, now).value, FitPlan(later, company', raw', input', now').value);
    FinishedFitSettles(later, company', raw', input', now');
  }

  lemma SameBeside(p: Plan, q: Plan)
    requires p.tracker == q.tracker && p.vehicle == q.vehicle && p.row.kind == q.row.kind
    ensures forall t, v :: Beside(q, t, v) ==> Beside(p, t, v)
  {
  }

  /** A cut-off fitting asked for again passes its checks, with the same device and vehicle. */
  lemma RetryIsAccepted(db: Db, company: string, raw: string, input: FitInput, now: Time, written: nat, later: Time)
    requires FitPlan(db, company, raw, input, now).Ok? && now <= later
    ensures var crashed := Fit(db, company, raw, input, now, Conditions(false, Some(written))).0;
            SameFitting(FitPlan(db, company, raw, input, now), FitPlan(crashed, company, raw, input, later))
  {
    var p := FitPlan(db, company, raw, input, now).value;
    WritesSpelledOut(db, p, Survivors(Conditions(false, Some(written)), FitSize(p)));
  }

  /** Retried as it was asked for, whenever that is, a cut-off fitting restores full agreement. */
  lemma RetryRepairs(db: Db, company: string, raw: string, input: FitInput, now: Time, written: nat, later: Time, env: CatalogCache.Env)
    requires RegisterInv(db) && FullAgreement(db) && FitPlan(db, company, raw, input, now).Ok? && now <= later
    ensures var crashed := Fit(db, company, raw, input, now, Conditions(false, Some(written))).0;
            var (end, r) := Fit(crashed, company, raw, input, later, ALL_WELL);
            r.Ok? && FullAgreement(end)
  {
    var crashed := Fit(db, company, raw, input, now, Conditions(false, Some(written))).0;
    RetryIsAccepted(db, company, raw, input, now, written, later);
    CrashIsRepairedLater(db, company, raw, input, now, written, crashed, [], env, crashed, company, raw, input, later);
  }
}
