/** The reference lists without their cache (catalog.go, catalog_write.go): who sees what, and who may write it. */
module Catalog {
  import opened Wrappers
  import opened Text
  import opened Normalise
  import opened Records
  import opened Registry

  // ----- The lists -----

  /** Lists whose entries carry an owner. */
  const OWNED: set<string> := {
    "brand", "cargoType", "itemCategory", "itemSubCategory", "item",
    "truckHead", "truckBody", "truckClass", "vehicleGroup", "customer" }

  /** Writable lists whose entries carry none. */
  const UNOWNED: set<string> := { "trackerModel", "sensorType" }

  const READ_ONLY: set<string> := {
    "truckType", "itemType", "itemCharacter", "pricingType", "paymentType",
    "currency", "requirement", "provinsi", "kota", "district" }

  const SHAREABLE: set<string> := {
    "brand", "cargoType", "itemCategory", "itemSubCategory", "truckHead", "truckBody", "truckClass" }

  predicate Writable(kind: string) {
    kind in OWNED || kind in UNOWNED
  }

  predicate Served(kind: string) {
    Writable(kind) || kind in READ_ONLY
  }

  function ParentField(kind: string): string {
    if kind == "itemSubCategory" then "categoryId"
    else if kind == "item" then "cargoTypeId"
    else if kind == "kota" then "provinceId"
    else if kind == "district" then "cityId"
    else ""
  }

  function RequiredFields(kind: string): seq<string> {
    if kind == "trackerModel" then ["vendor", "model"]
    else if kind == "sensorType" then ["code", "name"]
    else ["name"]
  }

  function Field(fields: map<string, string>, name: string): string {
    if name in fields then fields[name] else ""
  }

  // ----- Reading -----

  datatype Caller = Caller(company: string, staff: bool)

  /** A company sees the shared entries and its own; staff see everything. */
  predicate Visible(d: Doc, c: Caller) {
    c.staff || d.companyId == None || (c.company != "" && d.companyId == Some(c.company))
  }

  /** The live entries of one list that a caller's queries can match. */
  function View(db: Db, kind: string, c: Caller): map<string, Doc> {
    map ref | ref in db.docs && ref.kind == kind && !db.docs[ref].deleted && Visible(db.docs[ref], c) :: ref.id := db.docs[ref]
  }

  datatype Entry = Entry(id: string, kind: string, companyId: Option<string>, fields: map<string, string>)

  function EntryOf(kind: string, id: string, d: Doc): Entry {
    Entry(id, kind, if d.companyId == Some("") then None else d.companyId, d.fields)
  }

  datatype Sort = Sort(field: string, desc: bool)
  datatype Clause = Clause(field: string, operator: string, value: string)
  datatype Params = Params(page: int, pageSize: int, filters: seq<Clause>, sorts: seq<Sort>, search: string)

  datatype Page = Page(entries: seq<Entry>, total: nat)

  /** How the database orders, skips and limits the documents a query matched. */
  type Cursor = (seq<Sort>, int, int, map<string, Doc>) -> seq<string>

  function Offset(p: Params): int {
    if p.page < 1 then 0 else p.page * p.pageSize
  }

  function Matches(view: map<string, Doc>, kind: string, parent: string, search: string): map<string, Doc> {
    map id | id in view
      && (parent == "" || Field(view[id].fields, ParentField(kind)) == parent)
      && (search == "" || Lower(search) <= view[id].nameNormalised)
      :: view[id]
  }

  /** A search finds the names that begin with it, folded as they are stored. */
  predicate Finds(search: string, name: string) {
    search == "" || Lower(search) <= Name(name)
  }

  /** The database returns ids it found, each once. */
  ghost predicate Honest(ids: seq<string>, found: map<string, Doc>) {
    && (forall i :: 0 <= i < |ids| ==> ids[i] in found)
    && (forall i, j :: 0 <= i < j < |ids| ==> ids[i] != ids[j])
  }

  ghost predicate HonestCursor(cursor: Cursor) {
    forall sorts, offset, limit, found :: Honest(cursor(sorts, offset, limit, found), found)
  }

  /** A listing uses the search, the sorts and the page; the clauses are ignored. */
  function PageOf(view: map<string, Doc>, kind: string, parent: string, p: Params, cursor: Cursor): Page {
    var found := Matches(view, kind, parent, p.search);
    var ids := cursor(p.sorts, Offset(p), p.pageSize, found);
    Page(seq(|ids|, i requires 0 <= i < |ids| =>
               EntryOf(kind, ids[i], if ids[i] in found then found[ids[i]] else Doc(None, "", map[], false))),
         |found|)
  }

  function Get(db: Db, kind: string, raw: string, c: Caller): Reply<Entry> {
    if !Served(kind) then Refused(UnknownKind)
    else if ObjectId(raw).None? || ObjectId(raw).value !in View(db, kind, c) then Refused(NotFound)
    else Ok(EntryOf(kind, ObjectId(raw).value, View(db, kind, c)[ObjectId(raw).value]))
  }

  function List(db: Db, kind: string, c: Caller, parent: string, p: Params, cursor: Cursor): Reply<Page> {
    if !Served(kind) then Refused(UnknownKind)
    else if parent != "" && ParentField(kind) == "" then Refused(Validation)
    else Ok(PageOf(View(db, kind, c), kind, parent, p, cursor))
  }

  datatype Ref = Ref(kind: string, ids: seq<string>)

  function ResolveIds(view: map<string, Doc>, kind: string, ids: seq<string>): map<string, Entry> {
    if ids == [] then map[]
    else
      var rest := ResolveIds(view, kind, ids[..|ids| - 1]);
      var id := ObjectId(ids[|ids| - 1]);
      if id.Some? && id.value in view then rest[id.value := EntryOf(kind, id.value, view[id.value])] else rest
  }

  /** Resolving acts for one company, never for staff. */
  function Resolve(db: Db, company: string, refs: seq<Ref>): Reply<map<string, Entry>> {
    if refs == [] then Ok(map[])
    else
      var last := refs[|refs| - 1];
      var rest := Resolve(db, company, refs[..|refs| - 1]);
      if rest.Refused? then rest
      else if !Served(last.kind) then Refused(UnknownKind)
      else Ok(rest.value + ResolveIds(View(db, last.kind, Caller(company, false)), last.kind, last.ids))
  }

  /** The ids among these, as typed, that were not resolved; empty ones are passed over. */
  function Unresolved(out: map<string, Entry>, ids: seq<string>): seq<string> {
    if ids == [] then []
    else
      var rest, id := Unresolved(out, ids[..|ids| - 1]), ids[|ids| - 1];
      if id == "" || id in out then rest else rest + [id]
  }

  function Invalid(out: map<string, Entry>, refs: seq<Ref>): seq<string> {
    if refs == [] then [] else Invalid(out, refs[..|refs| - 1]) + Unresolved(out, refs[|refs| - 1].ids)
  }

  /** The references that do not exist: looked up as typed in one map for all lists. */
  function Validate(db: Db, company: string, refs: seq<Ref>): Reply<seq<string>> {
    var resolved := Resolve(db, company, refs);
    if resolved.Refused? then Refused(resolved.error) else Ok(Invalid(resolved.value, refs))
  }

  // ----- Writing -----

  const RESERVED: set<string> := {
    "_id", "id", "createdAt", "updatedAt", "deleted", "nameNormalised", "plateNormalised", "companyId" }

  function Unreserved(payload: map<string, string>): map<string, string> {
    payload - RESERVED
  }

  // ----- The typed documents -----

  /** The fields an owned entry shares with the others. */
  const SHARED_FIELDS: set<string> := { "name", "isActive", "createdByUserId" }

  /** The fields of a list's document; decoding a payload drops every other key. */
  function Declared(kind: string): set<string> {
    match kind
    case "brand" => SHARED_FIELDS
    case "cargoType" => SHARED_FIELDS + { "description", "characteristics" }
    case "itemCategory" => SHARED_FIELDS + { "description" }
    case "itemSubCategory" => SHARED_FIELDS + { "categoryId", "description" }
    case "item" => SHARED_FIELDS + {
      "categoryId", "subCategoryId", "cargoTypeId", "code", "codeNormalised", "description", "unit", "weightKg", "volumeM3", "attributes" }
    case "truckHead" => SHARED_FIELDS + { "code", "axles", "configuration", "imageKey" }
    case "truckBody" => SHARED_FIELDS + {
      "code", "maxWeightKg", "volumeM3", "lengthM", "widthM", "heightM", "cargoTypeIds", "imageKey" }
    case "truckClass" => SHARED_FIELDS + { "code", "typicalMaxWeightKg", "axles", "sortOrder" }
    case "vehicleGroup" => { "name", "description", "picUserIds" }
    case "customer" => { "name", "code", "npwp", "address", "contactName", "contactPhone", "contactEmail" }
    case "trackerModel" => { "vendor", "model", "kind", "protocol", "attributes", "isActive" }
    case "sensorType" => { "code", "name", "unit", "valueKind", "description", "isActive" }
    case _ => {}
  }

  /** Lists whose documents carry no folded name, which is what a search matches; the read-only ones are loaded with it. */
  const UNNAMED: set<string> := { "item", "trackerModel", "sensorType" }

  function Defaulted(v: string, otherwise: string): string {
    if v == "" then otherwise else v
  }

  /** What is stored under one field of a decoded document once its `BeforeWrite` has run. */
  function FieldWritten(kind: string, fields: map<string, string>, k: string): Option<string> {
    var given := if k in fields then Some(fields[k]) else None;
    if k == "isActive" then Some(if kind in UNOWNED || Field(fields, k) == "true" then "true" else "false")
    else if k == "codeNormalised" then Optional(Serial, if "code" in fields then Some(fields["code"]) else None)
    else if kind == "sensorType" && k == "code" then Some(Upper(Trim(Field(fields, k))))
    else if (kind == "sensorType" && k == "name") || (kind == "trackerModel" && k in {"vendor", "model"}) then Some(Trim(Field(fields, k)))
    else if kind == "sensorType" && k == "valueKind" then Some(Defaulted(Field(fields, k), "number"))
    else if kind == "trackerModel" && k == "kind" then Some(Defaulted(Field(fields, k), "gps"))
    else if k in {"characteristics", "cargoTypeIds", "picUserIds"} then Some(Defaulted(Field(fields, k), "[]"))
    else if kind == "item" && k == "attributes" then Some(Defaulted(Field(fields, k), "{}"))
    else given
  }

  function FieldsWritten(kind: string, fields: map<string, string>): map<string, string> {
    map k | k in Declared(kind) && FieldWritten(kind, fields, k).Some? :: FieldWritten(kind, fields, k).value
  }

  function Twin(kind: string, fields: map<string, string>): string {
    if kind in UNNAMED then "" else Name(Field(fields, "name"))
  }

  /** The document a store writes: decoded, its fields folded and its twin filled. */
  function DocWritten(kind: string, owner: Option<string>, fields: map<string, string>): Doc {
    var written := FieldsWritten(kind, fields);
    Doc(owner, Twin(kind, written), written, false)
  }

  /** Who owns what is being written: a company always itself, staff whoever they name, or everybody. */
  function ScopeFor(c: Caller, requested: string): Option<string> {
    if !c.staff then Some(c.company) else if Trim(requested) == "" then None else Some(Trim(requested))
  }

  predicate HasRequired(kind: string, payload: map<string, string>) {
    && (forall i :: 0 <= i < |RequiredFields(kind)| ==> Trim(Field(payload, RequiredFields(kind)[i])) != "")
    && (kind == "itemSubCategory" ==> Trim(Field(payload, "categoryId")) != "")
  }

  function Inserted(db: Db, kind: string, owner: Option<string>, payload: map<string, string>, newId: string, refused: bool): (Db, Reply<string>) {
    var kept := Unreserved(payload);
    var fields := if "isActive" in kept then kept else kept["isActive" := "true"];
    var ref := DocRef(kind, newId);
    if refused || ref in db.docs then (db, Refused(Validation))
    else (db.(docs := db.docs[ref := DocWritten(kind, owner, fields)]), Ok(newId))
  }

  /** `refused` is the verdict of the list's unique index and validator. */
  function Create(db: Db, kind: string, c: Caller, payload: map<string, string>, newId: string, refused: bool): (Db, Reply<string>) {
    if !Writable(kind) then (db, Refused(if Served(kind) then Validation else UnknownKind))
    else if !HasRequired(kind, payload) then (db, Refused(Validation))
    else if kind in UNOWNED then
      if !c.staff then (db, Refused(Forbidden)) else Inserted(db, kind, None, payload, newId, refused)
    else if ScopeFor(c, Field(payload, "companyId")).None? && kind !in SHAREABLE then (db, Refused(Validation))
    else Inserted(db, kind, ScopeFor(c, Field(payload, "companyId")), payload, newId, refused)
  }

  /** The entry a caller may change: staff any, a company its own. */
  function Load(db: Db, kind: string, raw: string, c: Caller): Reply<DocRef> {
    if ObjectId(raw).None? then Refused(NotFound)
    else
      var ref := DocRef(kind, ObjectId(raw).value);
      if ref !in db.docs || db.docs[ref].deleted then Refused(NotFound)
      else if c.staff then Ok(ref)
      else if db.docs[ref].companyId.None? || db.docs[ref].companyId.value == "" then Refused(Forbidden)
      else if db.docs[ref].companyId.value != c.company then Refused(NotFound)
      else Ok(ref)
  }

  function Update(db: Db, kind: string, raw: string, c: Caller, payload: map<string, string>, refused: bool): (Db, Reply<string>) {
    if !Writable(kind) then (db, Refused(Validation))
    else
      var loaded := Load(db, kind, raw, c);
      if loaded.Refused? then (db, Refused(loaded.error))
      else if refused then (db, Refused(Validation))
      else
        var d := db.docs[loaded.value];
        (db.(docs := db.docs[loaded.value := DocWritten(kind, d.companyId, d.fields + Unreserved(payload))]), Ok(loaded.value.id))
  }

  function Ungrouped(vehicles: map<string, Vehicle>, group: string): map<string, Vehicle> {
    map u | u in vehicles ::
      if vehicles[u].truckGroupId == Some(group) then vehicles[u].(truckGroupId := None) else vehicles[u]
  }

  /** Retires an entry; a retired vehicle group leaves every vehicle that names the id as spelled, whoever owns it. */
  function Delete(db: Db, kind: string, raw: string, c: Caller): (Db, Reply<string>) {
    if !Writable(kind) then (db, Refused(Validation))
    else
      var loaded := Load(db, kind, raw, c);
      if loaded.Refused? then (db, Refused(loaded.error))
      else
        var retired := db.(docs := db.docs[loaded.value := db.docs[loaded.value].(deleted := true)]);
        (if kind == VEHICLE_GROUP then retired.(vehicles := Ungrouped(db.vehicles, raw)) else retired, Ok(loaded.value.id))
  }

  // ----- Group references -----

  /** The vehicle names no group, or a live group of its own company, by the group's printed id. */
  ghost predicate GroupSound(db: Db, v: Vehicle) {
    v.truckGroupId.Some? ==>
      ObjectId(v.truckGroupId.value) == v.truckGroupId && GroupLive(db, v.companyId, v.truckGroupId.value)
  }

  ghost predicate GroupInv(db: Db) {
    forall v :: v in db.vehicles ==> GroupSound(db, db.vehicles[v])
  }

  /** Retiring a group keeps the references whole exactly when its id is spelled as stored, or nobody was in it. */
  lemma DeleteGroupKeepsExactly(db: Db, raw: string, c: Caller)
    requires GroupInv(db) && Load(db, VEHICLE_GROUP, raw, c).Ok?
    ensures GroupInv(Delete(db, VEHICLE_GROUP, raw, c).0) <==>
            (ObjectId(raw) == Some(raw) || forall v :: v in db.vehicles ==> db.vehicles[v].truckGroupId != ObjectId(raw))
  {
    var id := ObjectId(raw).value;
    var db' := Delete(db, VEHICLE_GROUP, raw, c).0;
    if v :| v in db.vehicles && db.vehicles[v].truckGroupId == Some(id) && raw != id {
      assert db'.vehicles[v] == db.vehicles[v];
      assert !GroupSound(db', db'.vehicles[v]);
    } else {
      forall v | v in db'.vehicles ensures GroupSound(db', db'.vehicles[v]) {
        assert GroupSound(db, db.vehicles[v]);
      }
    }
  }

  // ----- Tenants -----

  /** What one caller can see of one list. */
  ghost predicate SameView(db: Db, db': Db, kind: string, c: Caller) {
    View(db, kind, c) == View(db', kind, c)
  }

  /** Changing one entry shows only to callers who see it before or after. */
  lemma OneEntryShows(db: Db, db': Db, ref: DocRef, kind: string, c: Caller)
    requires ref in db'.docs && db'.docs == db.docs[ref := db'.docs[ref]]
    requires ref.kind != kind || (!Visible(db'.docs[ref], c) && (ref in db.docs ==> !Visible(db.docs[ref], c)))
    ensures SameView(db, db', kind, c)
  {
    var x, y := View(db, kind, c), View(db', kind, c);
    forall id ensures id in x <==> id in y
      ensures id in x ==> x[id] == y[id]
    {
      var r := DocRef(kind, id);
      assert id in x <==> r in db.docs && !db.docs[r].deleted && Visible(db.docs[r], c);
      assert id in y <==> r in db'.docs && !db'.docs[r].deleted && Visible(db'.docs[r], c);
    }
  }

  datatype Write =
    | WCreate(kind: string, payload: map<string, string>, newId: string, refused: bool)
    | WUpdate(kind: string, id: string, payload: map<string, string>, refused: bool)
    | WDelete(kind: string, id: string)

  function Written(db: Db, c: Caller, w: Write): (Db, Reply<string>) {
    match w
    case WCreate(kind, payload, newId, refused) => Create(db, kind, c, payload, newId, refused)
    case WUpdate(kind, id, payload, refused) => Update(db, kind, id, c, payload, refused)
    case WDelete(kind, id) => Delete(db, kind, id, c)
  }

  /** A write changes one entry of its own list, which for a company is an entry of its own. */
  lemma WriteTouchesOneEntry(db: Db, c: Caller, w: Write) returns (ref: DocRef)
    requires Written(db, c, w).1.Ok?
    ensures var db' := Written(db, c, w).0;
      && ref.kind == w.kind && (w.WCreate? || ObjectId(w.id) == Some(ref.id))
      && ref in db'.docs && db'.docs == db.docs[ref := db'.docs[ref]]
      && (!c.staff ==> db'.docs[ref].companyId == Some(c.company) && (ref in db.docs ==> db.docs[ref].companyId == Some(c.company)))
      && db'.trackers == db.trackers && db'.drivers == db.drivers && db'.assignments == db.assignments
      && db'.vehicles == (if w.WDelete? && w.kind == VEHICLE_GROUP then Ungrouped(db.vehicles, w.id) else db.vehicles)
  {
    match w
    case WCreate(kind, payload, newId, refused) => ref := DocRef(kind, newId);
    case WUpdate(kind, id, payload, refused) => ref := Load(db, kind, id, c).value;
    case WDelete(kind, id) => ref := Load(db, kind, id, c).value;
  }

  /** A refused write changes nothing. */
  lemma RefusedWriteIsNothing(db: Db, c: Caller, w: Write)
    ensures Written(db, c, w).1.Refused? ==> Written(db, c, w).0 == db
  {
  }

  /** A company's write shows only to itself and to staff, and only in the list written. */
  lemma WriteShowsOnlyAtHome(db: Db, c: Caller, w: Write, kind: string, other: Caller)
    requires !c.staff && (kind != w.kind || (!other.staff && other.company != c.company))
    ensures SameView(db, Written(db, c, w).0, kind, other)
  {
    if Written(db, c, w).1.Ok? {
      var ref := WriteTouchesOneEntry(db, c, w);
      OneEntryShows(db, Written(db, c, w).0, ref, kind, other);
    } else {
      RefusedWriteIsNothing(db, c, w);
    }
  }

  lemma {:induction false} ResolveSeesViews(db: Db, db': Db, company: string, refs: seq<Ref>)
    requires forall kind :: SameView(db, db', kind, Caller(company, false))
    ensures Resolve(db, company, refs) == Resolve(db', company, refs)
  {
    if refs != [] {
      ResolveSeesViews(db, db', company, refs[..|refs| - 1]);
      assert SameView(db, db', refs[|refs| - 1].kind, Caller(company, false));
    }
  }

  /** The vehicle names no group, or one of its own company: in whatever spelling, and retired or not. */
  ghost predicate GroupAtHome(db: Db, v: Vehicle) {
    v.truckGroupId.Some? ==>
      var id := ObjectId(v.truckGroupId.value);
      && id.Some? && DocRef(VEHICLE_GROUP, id.value) in db.docs
      && db.docs[DocRef(VEHICLE_GROUP, id.value)].companyId == Some(v.companyId)
  }

  ghost predicate GroupsAtHome(db: Db) {
    forall v :: v in db.vehicles ==> GroupAtHome(db, db.vehicles[v])
  }

  /** The unscoped sweep of a retired group's vehicles stays within the company that owned the group. */
  lemma UngroupingStaysHome(db: Db, c: Caller, w: Write)
    requires GroupsAtHome(db) && !c.staff
    ensures Written(db, c, w).0.vehicles.Keys == db.vehicles.Keys
    ensures forall v :: v in db.vehicles && db.vehicles[v].companyId != c.company ==> Written(db, c, w).0.vehicles[v] == db.vehicles[v]
  {
    if Written(db, c, w).1.Ok? {
      var ref := WriteTouchesOneEntry(db, c, w);
      if w.WDelete? && w.kind == VEHICLE_GROUP {
        forall v | v in db.vehicles && db.vehicles[v].truckGroupId == Some(w.id) ensures db.vehicles[v].companyId == c.company {
          assert GroupAtHome(db, db.vehicles[v]) && ref == DocRef(VEHICLE_GROUP, ObjectId(w.id).value) && ref in db.docs;
        }
      }
    } else {
      RefusedWriteIsNothing(db, c, w);
    }
  }

  lemma SameViewSameAnswers(db: Db, db': Db, kind: string, c: Caller, raw: string, parent: string, p: Params, cursor: Cursor)
    requires SameView(db, db', kind, c)
    ensures Get(db', kind, raw, c) == Get(db, kind, raw, c)
    ensures List(db', kind, c, parent, p, cursor) == List(db, kind, c, parent, p, cursor)
  {
  }

  /**
   * Tenants do not interfere: whatever a company writes, every other company and the shared
   * scope get the same answers as before, and keep the same vehicles.
   */
  lemma TenantsDoNotInterfere(db: Db, c: Caller, w: Write, other: string, kind: string, raw: string, parent: string, p: Params,
                              cursor: Cursor, refs: seq<Ref>)
    requires GroupsAtHome(db) && !c.staff && other != c.company
    ensures var (db', o) := (Written(db, c, w).0, Caller(other, false));
      && Get(db', kind, raw, o) == Get(db, kind, raw, o)
      && List(db', kind, o, parent, p, cursor) == List(db, kind, o, parent, p, cursor)
      && Resolve(db', other, refs) == Resolve(db, other, refs)
      && forall v :: v in db.vehicles && db.vehicles[v].companyId == other ==> v in db'.vehicles && db'.vehicles[v] == db.vehicles[v]
  {
    var db', o := Written(db, c, w).0, Caller(other, false);
    forall k ensures SameView(db, db', k, o) { WriteShowsOnlyAtHome(db, c, w, k, o); }
    SameViewSameAnswers(db, db', kind, o, raw, parent, p, cursor);
    ResolveSeesViews(db, db', other, refs);
    UngroupingStaysHome(db, c, w);
  }
}
