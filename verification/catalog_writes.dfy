/** What a list write means to its readers: who may make it, who sees it after, and that the three ways of reading agree. */
module CatalogWrites {
  import opened Wrappers
  import opened Text
  import opened Normalise
  import opened Records
  import opened Catalog

  /** Every stored id is spelled the way the database prints it. */
  ghost predicate IdsPrinted(db: Db) {
    forall ref :: ref in db.docs ==> ObjectId(ref.id) == Some(ref.id)
  }

  /** A live entry answers to this spelling of its id. */
  predicate Answers(db: Db, kind: string, raw: string) {
    ObjectId(raw).Some? && DocRef(kind, ObjectId(raw).value) in db.docs && !db.docs[DocRef(kind, ObjectId(raw).value)].deleted
  }

  function Owner(db: Db, kind: string, raw: string): Option<string>
    requires Answers(db, kind, raw)
  {
    db.docs[DocRef(kind, ObjectId(raw).value)].companyId
  }

  // ----- Authority -----

  /**
   * Staff may change every live entry, a company exactly its own. It is told of a shared entry
   * that it may not, and of another company's what it would be told were there none.
   */
  lemma AuthorityExactly(db: Db, kind: string, raw: string, c: Caller)
    ensures Load(db, kind, raw, c).Ok? <==>
            Answers(db, kind, raw) && (c.staff || (c.company != "" && Owner(db, kind, raw) == Some(c.company)))
    ensures Load(db, kind, raw, c) == Refused(Forbidden) <==>
            Answers(db, kind, raw) && !c.staff && Owner(db, kind, raw) in {None, Some("")}
    ensures !Answers(db, kind, raw) ==> Load(db, kind, raw, c) == Refused(NotFound)
    ensures Answers(db, kind, raw) && !c.staff && Owner(db, kind, raw) !in {None, Some(""), Some(c.company)} ==>
            Load(db, kind, raw, c) == Refused(NotFound)
  {
  }

  /** Reading and changing differ in the shared entries only: a company reads what it may change, and the shared ones. */
  lemma ReadsWhatItMayChange(db: Db, kind: string, raw: string, c: Caller)
    requires Served(kind)
    ensures Get(db, kind, raw, c).Ok? <==>
            Load(db, kind, raw, c).Ok? || (Answers(db, kind, raw) && Owner(db, kind, raw) == None)
  {
    if Answers(db, kind, raw) {
      var ref := DocRef(kind, ObjectId(raw).value);
      assert ref.id in View(db, kind, c) <==> Visible(db.docs[ref], c);
    }
  }

  /** A write is applied only where the caller has the authority for it. */
  lemma WritesNeedAuthority(db: Db, c: Caller, w: Write)
    requires Written(db, c, w).1.Ok?
    ensures Writable(w.kind)
    ensures !w.WCreate? ==> Load(db, w.kind, w.id, c).Ok?
    ensures w.WCreate? && !c.staff ==> w.kind in OWNED
  {
  }

  // ----- What a write is read as afterwards -----

  /** Any single entry, read back. */
  lemma ReadsBack(db: Db, ref: DocRef, raw: string, o: Caller)
    requires Served(ref.kind) && ObjectId(raw) == Some(ref.id)
    ensures Get(db, ref.kind, raw, o) ==
            if ref in db.docs && !db.docs[ref].deleted && Visible(db.docs[ref], o) then Ok(EntryOf(ref.kind, ref.id, db.docs[ref]))
            else Refused(NotFound)
  {
    assert ref.id in View(db, ref.kind, o) <==> ref in db.docs && !db.docs[ref].deleted && Visible(db.docs[ref], o);
  }

  /** Fields a list treats specially when it is written; every other declared field is stored as typed. */
  function Treated(kind: string): set<string> {
    { "isActive", "characteristics", "cargoTypeIds", "picUserIds" }
    + (match kind
       case "item" => { "codeNormalised", "attributes" }
       case "sensorType" => { "code", "name", "valueKind" }
       case "trackerModel" => { "vendor", "model", "kind" }
       case _ => {})
  }

  /** The device lists fold what their unique indexes are on, and an item the twin of its code. */
  ghost predicate Folded(kind: string, fields: map<string, string>, typed: map<string, string>) {
    match kind
    case "sensorType" =>
      && {"code", "name", "valueKind"} <= fields.Keys
      && Lower(fields["code"]) == Lower(Trim(Field(typed, "code"))) && (forall ch :: ch in fields["code"] ==> !('a' <= ch <= 'z'))
      && fields["name"] == Trim(Field(typed, "name"))
      && fields["valueKind"] == (if Field(typed, "valueKind") == "" then "number" else typed["valueKind"])
    case "trackerModel" =>
      && {"vendor", "model", "kind"} <= fields.Keys
      && fields["vendor"] == Trim(Field(typed, "vendor")) && fields["model"] == Trim(Field(typed, "model"))
      && fields["kind"] == (if Field(typed, "kind") == "" then "gps" else typed["kind"])
    case "item" =>
      && "attributes" in fields && fields["attributes"] == (if Field(typed, "attributes") == "" then "{}" else typed["attributes"])
      && ("codeNormalised" in fields <==> "code" in typed && Filter(IsAlnum, typed["code"]) != "")
      && ("codeNormalised" in fields ==> SamePlate(fields["codeNormalised"], typed["code"]))
    case _ => true
  }

  /** What is stored of what was typed: the declared fields only, as typed unless the list treats them. */
  ghost predicate KeptFrom(kind: string, fields: map<string, string>, typed: map<string, string>) {
    && fields.Keys <= Declared(kind)
    && (forall k :: k in Declared(kind) - Treated(kind) ==> (k in fields <==> k in typed))
    && (forall k :: k in Declared(kind) - Treated(kind) && k in typed ==> fields[k] == typed[k])
    && ("isActive" in Declared(kind) ==>
          "isActive" in fields && (fields["isActive"] == "true" <==> kind in UNOWNED || Field(typed, "isActive") == "true"))
    && ListsSaid(kind, fields, typed) && Folded(kind, fields, typed)
  }

  /** The fields that are lists are never absent. */
  ghost predicate ListsSaid(kind: string, fields: map<string, string>, typed: map<string, string>) {
    forall k :: k in {"characteristics", "cargoTypeIds", "picUserIds"} && k in Declared(kind) ==>
      k in fields && fields[k] == if Field(typed, k) == "" then "[]" else typed[k]
  }

  lemma WrittenSaysLists(kind: string, typed: map<string, string>)
    ensures ListsSaid(kind, FieldsWritten(kind, typed), typed)
  {
    forall k | k in {"characteristics", "cargoTypeIds", "picUserIds"} && k in Declared(kind)
      ensures FieldWritten(kind, typed, k) == Some(if Field(typed, k) == "" then "[]" else typed[k])
    {
    }
  }

  /** What a payload says: the store keeps its own stamps and twins, and the owner is decided elsewhere. */
  function Said(payload: map<string, string>): map<string, string> {
    payload - { "_id", "id", "createdAt", "updatedAt", "deleted", "nameNormalised", "plateNormalised", "companyId" }
  }

  /** The payload of a creation, active unless it says otherwise. */
  function TypedNew(payload: map<string, string>): map<string, string> {
    map["isActive" := "true"] + Unreserved(payload)
  }

  lemma CodesFold(s: string)
    ensures Lower(Upper(s)) == Lower(s) && forall ch :: ch in Upper(s) ==> !('a' <= ch <= 'z')
  {
  }

  lemma ItemCodeFolds(code: string)
    ensures Optional(Serial, Some(code)).Some? <==> Filter(IsAlnum, code) != ""
    ensures Optional(Serial, Some(code)).Some? ==> SamePlate(Optional(Serial, Some(code)).value, code)
  {
    FilterIgnoresTrim(IsAlnum, code);
    FoldingIsIdempotent(code);
    PlateIdentifies(Plate(code), code);
  }

  lemma DevicesAreFolded(kind: string, typed: map<string, string>)
    requires kind in UNOWNED
    ensures Folded(kind, FieldsWritten(kind, typed), typed)
  {
    CodesFold(Trim(Field(typed, "code")));
  }

  lemma WrittenIsFolded(kind: string, typed: map<string, string>)
    ensures Folded(kind, FieldsWritten(kind, typed), typed)
  {
    if kind in UNOWNED { DevicesAreFolded(kind, typed); }
    if "code" in typed { ItemCodeFolds(typed["code"]); }
  }

  lemma PlainFieldIsKept(kind: string, typed: map<string, string>, k: string)
    requires k in Declared(kind) && k !in Treated(kind)
    ensures FieldWritten(kind, typed, k) == if k in typed then Some(typed[k]) else None
  {
    assert kind != "item" ==> k != "codeNormalised";
  }

  lemma WrittenIsKept(kind: string, typed: map<string, string>)
    ensures KeptFrom(kind, FieldsWritten(kind, typed), typed)
  {
    WrittenIsFolded(kind, typed);
    WrittenSaysLists(kind, typed);
    forall k | k in Declared(kind) - Treated(kind) ensures FieldWritten(kind, typed, k) == if k in typed then Some(typed[k]) else None {
      PlainFieldIsKept(kind, typed, k);
    }
  }

  /** A company's new entry is its own; staff's is shared unless they name a company, and device lists are always shared. */
  predicate OwnedAs(owner: Option<string>, c: Caller, kind: string, payload: map<string, string>) {
    if !c.staff then owner == Some(c.company)
    else if kind in UNOWNED || "companyId" !in payload || Trim(payload["companyId"]) == "" then owner == None
    else owner == Some(Trim(payload["companyId"]))
  }

  lemma CreatedIsStored(db: Db, kind: string, c: Caller, payload: map<string, string>, newId: string, refused: bool)
    requires Create(db, kind, c, payload, newId, refused).1.Ok?
    ensures var db' := Create(db, kind, c, payload, newId, refused).0;
            exists owner ::
              OwnedAs(owner, c, kind, payload) && db'.docs == db.docs[DocRef(kind, newId) := DocWritten(kind, owner, TypedNew(payload))]
  {
    assert Trim("") == "";
    var owner := if kind in UNOWNED then None else ScopeFor(c, Field(payload, "companyId"));
    assert OwnedAs(owner, c, kind, payload);
    var kept := Unreserved(payload);
    assert TypedNew(payload) == if "isActive" in kept then kept else kept["isActive" := "true"];
  }

  /**
   * A new entry is read by its owner, by staff, and by everybody when it is shared, and by nobody
   * else; it says what was typed, as far as its list declares it and apart from what the list folds.
   */
  lemma CreatedIsRead(db: Db, kind: string, c: Caller, payload: map<string, string>, newId: string, refused: bool, o: Caller)
    requires ObjectId(newId) == Some(newId) && Create(db, kind, c, payload, newId, refused).1.Ok?
    ensures var got := Get(Create(db, kind, c, payload, newId, refused).0, kind, newId, o);
      exists owner, fields ::
        && OwnedAs(owner, c, kind, payload) && KeptFrom(kind, fields, map["isActive" := "true"] + Said(payload))
        && got == if o.staff || owner == None || (o.company != "" && owner == Some(o.company))
                  then Ok(Entry(newId, kind, if owner == Some("") then None else owner, fields)) else Refused(NotFound)
  {
    var db' := Create(db, kind, c, payload, newId, refused).0;
    CreatedIsStored(db, kind, c, payload, newId, refused);
    var owner :| OwnedAs(owner, c, kind, payload)
      && db'.docs == db.docs[DocRef(kind, newId) := DocWritten(kind, owner, TypedNew(payload))];
    ReadsBack(db', DocRef(kind, newId), newId, o);
    WrittenIsKept(kind, TypedNew(payload));
    var fields := FieldsWritten(kind, TypedNew(payload));
    assert OwnedAs(owner, c, kind, payload) && KeptFrom(kind, fields, map["isActive" := "true"] + Said(payload));
  }

  /** An update is read by exactly those who read the entry before: same owner, the payload laid over what it said. */
  lemma UpdatedIsRead(db: Db, kind: string, raw: string, c: Caller, payload: map<string, string>, refused: bool, again: string, o: Caller)
    requires ObjectId(again) == ObjectId(raw) && Update(db, kind, raw, c, payload, refused).1.Ok?
    ensures var (was, now) := (Get(db, kind, again, o), Get(Update(db, kind, raw, c, payload, refused).0, kind, again, o));
      && (now.Ok? <==> was.Ok?)
      && (now.Ok? ==>
            && now.value.(fields := map[]) == was.value.(fields := map[])
            && KeptFrom(kind, now.value.fields, was.value.fields + Said(payload)))
  {
    var ref := DocRef(kind, ObjectId(raw).value);
    ReadsBack(db, ref, again, o);
    ReadsBack(Update(db, kind, raw, c, payload, refused).0, ref, again, o);
    WrittenIsKept(kind, db.docs[ref].fields + Unreserved(payload));
  }

  // ----- Deactivation -----

  /** An entry is active unless it says otherwise. */
  predicate Active(e: Entry) {
    "isActive" in e.fields ==> e.fields["isActive"] == "true"
  }

  /** Lists whose entries can be switched off: groups and customers have no such field, and the device lists force it. */
  const SWITCHED: set<string> := OWNED - { "vehicleGroup", "customer" }

  lemma SwitchedExactly(kind: string)
    requires Writable(kind)
    ensures kind in SWITCHED <==> "isActive" in Declared(kind) && kind !in UNOWNED
  {
  }

  lemma SwitchedOff(kind: string, fields: map<string, string>, typed: map<string, string>)
    requires Writable(kind) && KeptFrom(kind, fields, typed) && Field(typed, "isActive") == "false"
    ensures ("isActive" in fields ==> fields["isActive"] == "true") <==> kind !in SWITCHED
  {
    SwitchedExactly(kind);
  }

  lemma TypedOff(was: map<string, string>, payload: map<string, string>)
    requires "isActive" in payload && payload["isActive"] == "false"
    ensures Field(was + Said(payload), "isActive") == "false"
  {
  }

  lemma UpdatableIsWritable(db: Db, kind: string, raw: string, c: Caller, payload: map<string, string>, refused: bool)
    requires Update(db, kind, raw, c, payload, refused).1.Ok?
    ensures Writable(kind)
  {
  }

  /** An update that switches an entry off is read as such exactly for the lists that can be switched. */
  lemma DeactivationTakesEffectExactly(db: Db, kind: string, raw: string, c: Caller, payload: map<string, string>, refused: bool, o: Caller)
    requires Update(db, kind, raw, c, payload, refused).1.Ok?
    requires "isActive" in payload && payload["isActive"] == "false"
    requires Get(Update(db, kind, raw, c, payload, refused).0, kind, raw, o).Ok?
    ensures Active(Get(Update(db, kind, raw, c, payload, refused).0, kind, raw, o).value) <==> kind !in SWITCHED
  {
    UpdatedIsRead(db, kind, raw, c, payload, refused, raw, o);
    var now, was := Get(Update(db, kind, raw, c, payload, refused).0, kind, raw, o).value.fields, Get(db, kind, raw, o).value.fields;
    UpdatableIsWritable(db, kind, raw, c, payload, refused);
    TypedOff(was, payload);
    SwitchedOff(kind, now, was + Said(payload));
  }

  // ----- What is stored stays as it is when saved again -----

  lemma FieldIsStable(kind: string, fields: map<string, string>, k: string)
    requires k in Declared(kind)
    ensures FieldWritten(kind, FieldsWritten(kind, fields), k) == FieldWritten(kind, fields, k)
  {
    var written := FieldsWritten(kind, fields);
    assert k in written <==> FieldWritten(kind, fields, k).Some?;
    assert k in written ==> written[k] == FieldWritten(kind, fields, k).value;
    TrimIdempotent(Field(fields, k));
    if k == "codeNormalised" {
      assert "code" in Declared(kind) && kind != "sensorType";
      assert FieldWritten(kind, fields, "code") == if "code" in fields then Some(fields["code"]) else None;
    } else if kind == "sensorType" && k == "code" {
      UpperSurvivesTrim(Trim(Field(fields, k)));
    }
  }

  /** Folding to upper case adds no space. */
  lemma {:induction false} UpperSurvivesTrim(s: string)
    requires Trim(s) == s
    ensures Upper(Trim(Upper(s))) == Upper(s)
  {
    assert Upper(Upper(s)) == Upper(s);
    if s != "" {
      TrimmedEnds(s);
      var u := Upper(s);
      assert u[0] == UpperChar(s[0]) && u[|u| - 1] == UpperChar(s[|s| - 1]);
      assert TrimLeft(u) == u && TrimRight(u) == u;
    }
  }

  lemma TrimmedEnds(s: string)
    requires Trim(s) == s && s != ""
    ensures !IsSpace(s[0]) && !IsSpace(s[|s| - 1])
  {
    TrimLeftStops(s);
    TrimRightKeepsHead(TrimLeft(s));
    TrimRightStops(TrimLeft(s));
  }

  lemma WrittenIsStable(kind: string, fields: map<string, string>)
    ensures FieldsWritten(kind, FieldsWritten(kind, fields)) == FieldsWritten(kind, fields)
  {
    forall k | k in Declared(kind)
      ensures FieldWritten(kind, FieldsWritten(kind, fields), k) == FieldWritten(kind, fields, k)
    {
      FieldIsStable(kind, fields, k);
    }
  }

  /** Every served entry carries its folded name, or none where its list has none. */
  ghost predicate NamesFolded(db: Db) {
    forall ref :: ref in db.docs && Served(ref.kind) ==> db.docs[ref].nameNormalised == Twin(ref.kind, db.docs[ref].fields)
  }

  /** And every entry of a writable list is as its own write path would leave it. */
  ghost predicate ListsStored(db: Db) {
    NamesFolded(db)
    && forall ref :: ref in db.docs && Writable(ref.kind) ==> db.docs[ref].fields == FieldsWritten(ref.kind, db.docs[ref].fields)
  }

  lemma StoringKeepsStored(db: Db, ref: DocRef, owner: Option<string>, fields: map<string, string>)
    ensures NamesFolded(db) ==> NamesFolded(db.(docs := db.docs[ref := DocWritten(ref.kind, owner, fields)]))
    ensures ListsStored(db) ==> ListsStored(db.(docs := db.docs[ref := DocWritten(ref.kind, owner, fields)]))
  {
    WrittenIsStable(ref.kind, fields);
  }

  lemma CreateKeepsStored(db: Db, kind: string, c: Caller, payload: map<string, string>, newId: string, refused: bool)
    requires Create(db, kind, c, payload, newId, refused).1.Ok?
    ensures NamesFolded(db) ==> NamesFolded(Create(db, kind, c, payload, newId, refused).0)
    ensures ListsStored(db) ==> ListsStored(Create(db, kind, c, payload, newId, refused).0)
  {
    CreatedIsStored(db, kind, c, payload, newId, refused);
    var db' := Create(db, kind, c, payload, newId, refused).0;
    var owner :| OwnedAs(owner, c, kind, payload)
      && db'.docs == db.docs[DocRef(kind, newId) := DocWritten(kind, owner, TypedNew(payload))];
    StoringKeepsStored(db, DocRef(kind, newId), owner, TypedNew(payload));
  }

  lemma UpdateKeepsStored(db: Db, kind: string, raw: string, c: Caller, payload: map<string, string>, refused: bool)
    requires Update(db, kind, raw, c, payload, refused).1.Ok?
    ensures NamesFolded(db) ==> NamesFolded(Update(db, kind, raw, c, payload, refused).0)
    ensures ListsStored(db) ==> ListsStored(Update(db, kind, raw, c, payload, refused).0)
  {
    var ref := Load(db, kind, raw, c).value;
    StoringKeepsStored(db, ref, db.docs[ref].companyId, db.docs[ref].fields + Unreserved(payload));
  }

  /** Entries say what they said, retired or not. */
  ghost predicate SayTheSame(db: Db, db': Db) {
    forall ref :: ref in db'.docs ==>
      ref in db.docs && db'.docs[ref].fields == db.docs[ref].fields && db'.docs[ref].nameNormalised == db.docs[ref].nameNormalised
  }

  lemma SameSayKeepsStored(db: Db, db': Db)
    requires SayTheSame(db, db')
    ensures NamesFolded(db) ==> NamesFolded(db')
    ensures ListsStored(db) ==> ListsStored(db')
  {
  }

  lemma DeleteSaysTheSame(db: Db, kind: string, raw: string, c: Caller)
    ensures SayTheSame(db, Delete(db, kind, raw, c).0)
  {
    var (db', loaded) := (Delete(db, kind, raw, c).0, Load(db, kind, raw, c));
    assert db'.docs == db.docs || (loaded.Ok? && db'.docs == db.docs[loaded.value := db.docs[loaded.value].(deleted := true)]);
  }

  lemma DeleteKeepsStored(db: Db, kind: string, raw: string, c: Caller)
    ensures NamesFolded(db) ==> NamesFolded(Delete(db, kind, raw, c).0)
    ensures ListsStored(db) ==> ListsStored(Delete(db, kind, raw, c).0)
  {
    DeleteSaysTheSame(db, kind, raw, c);
    SameSayKeepsStored(db, Delete(db, kind, raw, c).0);
  }

  lemma WriteKeepsStored(db: Db, c: Caller, w: Write)
    ensures NamesFolded(db) ==> NamesFolded(Written(db, c, w).0)
    ensures ListsStored(db) ==> ListsStored(Written(db, c, w).0)
  {
    if Written(db, c, w).1.Refused? {
      RefusedWriteIsNothing(db, c, w);
    } else {
      match w
      case WCreate(kind, payload, newId, refused) => CreateKeepsStored(db, kind, c, payload, newId, refused);
      case WUpdate(kind, id, payload, refused) => UpdateKeepsStored(db, kind, id, c, payload, refused);
      case WDelete(kind, id) => DeleteKeepsStored(db, kind, id, c);
    }
  }

  /** An update that says nothing changes nothing. */
  lemma EmptyUpdateIsNothing(db: Db, kind: string, raw: string, c: Caller)
    requires ListsStored(db) && Update(db, kind, raw, c, map[], false).1.Ok?
    ensures Update(db, kind, raw, c, map[], false).0 == db
  {
    var ref := Load(db, kind, raw, c).value;
    assert db.docs[ref].fields + Unreserved(map[]) == db.docs[ref].fields;
    assert db.docs[ref := db.docs[ref]] == db.docs;
  }

  /** The name a search is compared with; items and devices have none. */
  function SearchedName(kind: string, fields: map<string, string>): string {
    if kind in {"item", "trackerModel", "sensorType"} then "" else Field(fields, "name")
  }

  lemma TwinIsSearched(kind: string, fields: map<string, string>)
    ensures Twin(kind, fields) == Name(SearchedName(kind, fields))
  {
    assert Name("") == "";
  }

  /** A search finds a name that begins with it, case and outer or repeated space aside. */
  lemma FindsExactly(search: string, name: string)
    ensures Finds(search, name) <==> Begins(search, Trim(name))
  {
    FoldedBegins(search, Trim(name));
  }

  /** The entry hangs under this parent, or none is asked for. */
  predicate HangsUnder(kind: string, fields: map<string, string>, parent: string) {
    || parent == ""
    || match kind
       case "itemSubCategory" => Field(fields, "categoryId") == parent
       case "item" => Field(fields, "cargoTypeId") == parent
       case "kota" => Field(fields, "provinceId") == parent
       case "district" => Field(fields, "cityId") == parent
       case _ => false
  }

  /**
   * A listing matches the visible entries of the parent asked for whose name begins with the
   * search; items and devices have no folded name, and no search finds them.
   */
  lemma ListingMatchesExactly(db: Db, kind: string, c: Caller, parent: string, search: string, id: string)
    requires NamesFolded(db) && Served(kind) && (parent != "" ==> ParentField(kind) != "")
    ensures id in Matches(View(db, kind, c), kind, parent, search) <==>
            && id in View(db, kind, c)
            && HangsUnder(kind, View(db, kind, c)[id].fields, parent)
            && Begins(search, Trim(SearchedName(kind, View(db, kind, c)[id].fields)))
  {
    if id in View(db, kind, c) {
      var fields := View(db, kind, c)[id].fields;
      assert DocRef(kind, id) in db.docs;
      TwinIsSearched(kind, fields);
      FindsExactly(search, SearchedName(kind, fields));
    }
  }

  /** A parent is among the fields its list's documents declare. */
  lemma ParentIsDeclared(kind: string)
    requires Writable(kind) && ParentField(kind) != ""
    ensures ParentField(kind) in Declared(kind)
  {
    assert kind in {"itemSubCategory", "item"};
  }

  /** Only the four lists with a parent accept one. */
  lemma ParentIsAcceptedExactly(db: Db, kind: string, c: Caller, parent: string, p: Params, cursor: Cursor)
    ensures parent != "" ==> (List(db, kind, c, parent, p, cursor).Ok? <==> kind in {"itemSubCategory", "item", "kota", "district"})
    ensures parent == "" ==> (List(db, kind, c, parent, p, cursor).Ok? <==> Served(kind))
  {
    assert ParentField(kind) != "" <==> kind in {"itemSubCategory", "item", "kota", "district"};
    assert ParentField(kind) != "" ==> Served(kind);
  }

  /** A deleted entry is gone for everybody, staff included, and cannot be changed or deleted again. */
  lemma DeletedIsGone(db: Db, kind: string, raw: string, c: Caller, again: string, o: Caller, payload: map<string, string>, refused: bool)
    requires ObjectId(again) == ObjectId(raw) && Delete(db, kind, raw, c).1.Ok?
    ensures var db' := Delete(db, kind, raw, c).0;
      && Get(db', kind, again, o) == Refused(NotFound)
      && Update(db', kind, again, o, payload, refused) == (db', Refused(NotFound))
      && Delete(db', kind, again, o) == (db', Refused(NotFound))
  {
    ReadsBack(Delete(db, kind, raw, c).0, DocRef(kind, ObjectId(raw).value), again, o);
  }

  /** Every other entry is read as before, by everybody. */
  lemma OthersReadAsBefore(db: Db, c: Caller, w: Write, kind: string, raw: string, o: Caller)
    requires kind != w.kind || ObjectId(raw) != if w.WCreate? then Some(w.newId) else ObjectId(w.id)
    ensures Get(Written(db, c, w).0, kind, raw, o) == Get(db, kind, raw, o)
  {
    if Written(db, c, w).1.Refused? {
      RefusedWriteIsNothing(db, c, w);
    } else if Served(kind) && ObjectId(raw).Some? {
      var ref := WriteTouchesOneEntry(db, c, w);
      if w.WCreate? { CreateTouchesNewId(db, c, w); }
      var mine := DocRef(kind, ObjectId(raw).value);
      ReadsBack(db, mine, raw, o);
      ReadsBack(Written(db, c, w).0, mine, raw, o);
    }
  }

  lemma CreateTouchesNewId(db: Db, c: Caller, w: Write)
    requires w.WCreate?
    ensures forall ref :: ref != DocRef(w.kind, w.newId) ==>
              (ref in Written(db, c, w).0.docs <==> ref in db.docs) && (ref in db.docs ==> Written(db, c, w).0.docs[ref] == db.docs[ref])
  {
  }

  // ----- Ownership is for good -----

  ghost predicate OwnerKept(db: Db, db': Db, ref: DocRef) {
    ref in db.docs ==>
      && ref in db'.docs && db'.docs[ref].companyId == db.docs[ref].companyId
      && (db.docs[ref].deleted ==> db'.docs[ref] == db.docs[ref])
  }

  lemma WriteKeepsOwner(db: Db, c: Caller, w: Write, ref: DocRef)
    ensures OwnerKept(db, Written(db, c, w).0, ref)
  {
    match w
    case WCreate(kind, payload, newId, refused) => CreateTouchesNewId(db, c, w);
    case WUpdate(kind, id, payload, refused) =>
    case WDelete(kind, id) =>
  }

  /** However often a list is written, an entry keeps its owner, and once retired it stays as it was. */
  lemma {:induction false} OwnersAreForGood(db: Db, writes: seq<(Caller, Write)>, ref: DocRef)
    ensures OwnerKept(db, AllWritten(db, writes), ref)
  {
    if writes != [] {
      var head, last := writes[..|writes| - 1], writes[|writes| - 1];
      OwnersAreForGood(db, head, ref);
      WriteKeepsOwner(AllWritten(db, head), last.0, last.1, ref);
    }
  }

  function AllWritten(db: Db, writes: seq<(Caller, Write)>): Db {
    if writes == [] then db
    else Written(AllWritten(db, writes[..|writes| - 1]), writes[|writes| - 1].0, writes[|writes| - 1].1).0
  }

  // ----- The three ways of reading agree -----

  /** Every listed entry matches and is the one a lookup of its id gives; a page holding all the matches misses none. */
  lemma ListAgreesWithGet(db: Db, kind: string, c: Caller, parent: string, p: Params, cursor: Cursor)
    requires IdsPrinted(db) && Served(kind) && (parent != "" ==> ParentField(kind) != "")
    requires var found := Matches(View(db, kind, c), kind, parent, p.search); Honest(cursor(p.sorts, Offset(p), p.pageSize, found), found)
    ensures var (found, page) := (Matches(View(db, kind, c), kind, parent, p.search), List(db, kind, c, parent, p, cursor).value);
      && page.total == |found|
      && (forall i :: 0 <= i < |page.entries| ==> page.entries[i].id in found && Get(db, kind, page.entries[i].id, c) == Ok(page.entries[i]))
      && (|page.entries| == page.total ==>
            forall raw :: Get(db, kind, raw, c).Ok? && Get(db, kind, raw, c).value.id in found ==> Get(db, kind, raw, c).value in page.entries)
  {
    var view := View(db, kind, c);
    var found := Matches(view, kind, parent, p.search);
    var ids := cursor(p.sorts, Offset(p), p.pageSize, found);
    var page := List(db, kind, c, parent, p, cursor).value;
    forall i | 0 <= i < |page.entries| ensures page.entries[i].id in found && Get(db, kind, page.entries[i].id, c) == Ok(page.entries[i]) {
      assert ids[i] in found && DocRef(kind, ids[i]) in db.docs;
    }
    if |page.entries| == page.total {
      FullPageMissesNone(ids, found);
      forall raw | Get(db, kind, raw, c).Ok? && Get(db, kind, raw, c).value.id in found ensures Get(db, kind, raw, c).value in page.entries {
        var i :| 0 <= i < |ids| && ids[i] == ObjectId(raw).value;
        assert page.entries[i] == Get(db, kind, raw, c).value;
      }
    }
  }

  lemma FullPageMissesNone(ids: seq<string>, found: map<string, Doc>)
    requires Honest(ids, found) && |ids| == |found|
    ensures forall id :: id in found ==> exists i :: 0 <= i < |ids| && ids[i] == id
  {
    var named := set i | 0 <= i < |ids| :: ids[i];
    DistinctCount(ids);
    assert named <= found.Keys && |named| == |found.Keys|;
    if id :| id in found.Keys && id !in named {
      SubsetIsSmaller(named, found.Keys - {id});
    }
  }

  lemma SubsetIsSmaller(a: set<string>, b: set<string>)
    requires a <= b
    ensures |a| <= |b|
  {
    assert b == a + (b - a);
  }

  lemma {:induction false} DistinctCount(ids: seq<string>)
    requires forall i, j :: 0 <= i < j < |ids| ==> ids[i] != ids[j]
    ensures |set i | 0 <= i < |ids| :: ids[i]| == |ids|
  {
    if ids != [] {
      var head, last := ids[..|ids| - 1], ids[|ids| - 1];
      DistinctCount(head);
      var named, rest := (set i | 0 <= i < |ids| :: ids[i]), (set i | 0 <= i < |head| :: head[i]);
      assert named == rest + {last};
    }
  }

  /** One of these ids, looked up by the caller, gives this entry. */
  ghost predicate Looked(db: Db, c: Caller, r: Ref, id: string, e: Entry) {
    exists j :: 0 <= j < |r.ids| && ObjectId(r.ids[j]) == Some(id) && Get(db, r.kind, r.ids[j], c) == Ok(e)
  }

  /** These entries are what looking up every id of these lists gives: nothing else, and nothing missing. */
  ghost predicate AllLooked(db: Db, c: Caller, refs: seq<Ref>, out: map<string, Entry>) {
    && (forall id :: id in out ==> exists i :: 0 <= i < |refs| && Looked(db, c, refs[i], id, out[id]))
    && (forall i, id, e :: 0 <= i < |refs| && Looked(db, c, refs[i], id, e) ==> id in out)
  }

  lemma OneMoreList(db: Db, c: Caller, refs: seq<Ref>, last: Ref, rest: map<string, Entry>, more: map<string, Entry>)
    requires AllLooked(db, c, refs, rest)
    requires forall id :: id in more ==> Looked(db, c, last, id, more[id])
    requires forall id, e :: Looked(db, c, last, id, e) ==> id in more
    ensures AllLooked(db, c, refs + [last], rest + more)
  {
    var all, out := refs + [last], rest + more;
    forall id | id in out ensures exists i :: 0 <= i < |all| && Looked(db, c, all[i], id, out[id]) {
      if id in more {
        assert all[|refs|] == last;
      } else {
        var i :| 0 <= i < |refs| && Looked(db, c, refs[i], id, rest[id]);
        assert all[i] == refs[i];
      }
    }
    forall i, id, e | 0 <= i < |all| && Looked(db, c, all[i], id, e) ensures id in out {
      if i < |refs| { assert all[i] == refs[i]; }
    }
  }

  /** Resolving gives what looking each id up as the company would. */
  lemma {:induction false} ResolveAgreesWithGet(db: Db, company: string, refs: seq<Ref>)
    requires Resolve(db, company, refs).Ok?
    ensures AllLooked(db, Caller(company, false), refs, Resolve(db, company, refs).value)
  {
    if refs != [] {
      var head, last, c := refs[..|refs| - 1], refs[|refs| - 1], Caller(company, false);
      ResolveAgreesWithGet(db, company, head);
      ResolvesEachId(db, last.kind, c, last.ids);
      assert last == Ref(last.kind, last.ids) && refs == head + [last];
      OneMoreList(db, c, head, last, Resolve(db, company, head).value, ResolveIds(View(db, last.kind, c), last.kind, last.ids));
    }
  }

  /** One more id is looked up by itself. */
  lemma OneMoreId(db: Db, c: Caller, kind: string, ids: seq<string>, last: string, id: string, e: Entry)
    ensures Looked(db, c, Ref(kind, ids + [last]), id, e) <==>
            Looked(db, c, Ref(kind, ids), id, e) || (ObjectId(last) == Some(id) && Get(db, kind, last, c) == Ok(e))
  {
    var r, was := Ref(kind, ids + [last]), Ref(kind, ids);
    if Looked(db, c, was, id, e) {
      var j :| 0 <= j < |was.ids| && ObjectId(was.ids[j]) == Some(id) && Get(db, kind, was.ids[j], c) == Ok(e);
      assert r.ids[j] == was.ids[j];
    }
    if Looked(db, c, r, id, e) {
      var j :| 0 <= j < |r.ids| && ObjectId(r.ids[j]) == Some(id) && Get(db, kind, r.ids[j], c) == Ok(e);
      if j < |ids| { assert was.ids[j] == r.ids[j]; }
    }
    assert r.ids[|ids|] == last;
  }

  lemma {:induction false} ResolvesEachId(db: Db, kind: string, c: Caller, ids: seq<string>)
    requires Served(kind)
    ensures forall id, e :: Looked(db, c, Ref(kind, ids), id, e) <==>
              id in ResolveIds(View(db, kind, c), kind, ids) && ResolveIds(View(db, kind, c), kind, ids)[id] == e
  {
    if ids != [] {
      var head, last := ids[..|ids| - 1], ids[|ids| - 1];
      assert ids == head + [last];
      ResolvesEachId(db, kind, c, head);
      forall id, e ensures Looked(db, c, Ref(kind, ids), id, e) <==>
        id in ResolveIds(View(db, kind, c), kind, ids) && ResolveIds(View(db, kind, c), kind, ids)[id] == e
      {
        OneMoreId(db, c, kind, head, last, id, e);
        ResolvedStaysPut(db, kind, c, head, id);
      }
    }
  }

  /** An id resolved before has the entry a lookup gives. */
  lemma {:induction false} ResolvedStaysPut(db: Db, kind: string, c: Caller, ids: seq<string>, id: string)
    ensures id in ResolveIds(View(db, kind, c), kind, ids) ==>
              id in View(db, kind, c) && ResolveIds(View(db, kind, c), kind, ids)[id] == EntryOf(kind, id, View(db, kind, c)[id])
  {
    if ids != [] { ResolvedStaysPut(db, kind, c, ids[..|ids| - 1], id); }
  }

  // ----- Validating -----

  lemma PrintedIdsAreStable(raw: string)
    ensures ObjectId(raw).Some? ==> ObjectId(ObjectId(raw).value) == ObjectId(raw)
  {
    if ObjectId(raw).Some? { assert Lower(Lower(raw)) == Lower(raw); }
  }

  lemma {:induction false} UnresolvedExactly(out: map<string, Entry>, ids: seq<string>)
    ensures forall id :: id in Unresolved(out, ids) <==> id in ids && id != "" && id !in out
  {
    if ids != [] {
      UnresolvedExactly(out, ids[..|ids| - 1]);
      assert forall id :: id in ids <==> id in ids[..|ids| - 1] || id == ids[|ids| - 1];
    }
  }

  lemma {:induction false} InvalidExactly(out: map<string, Entry>, refs: seq<Ref>, id: string)
    ensures id in Invalid(out, refs) <==> id != "" && id !in out && exists i :: 0 <= i < |refs| && id in refs[i].ids
  {
    if refs != [] {
      var head := refs[..|refs| - 1];
      InvalidExactly(out, head, id);
      UnresolvedExactly(out, refs[|refs| - 1].ids);
      if i :| 0 <= i < |refs| && id in refs[i].ids {
        assert i < |head| ==> id in head[i].ids;
      }
      if i :| 0 <= i < |head| && id in head[i].ids { assert id in refs[i].ids; }
    }
  }

  /** A call resolves this id, as typed, under some list. */
  ghost predicate ResolvedSomewhere(db: Db, c: Caller, refs: seq<Ref>, id: string) {
    exists k, e :: 0 <= k < |refs| && Looked(db, c, refs[k], id, e)
  }

  lemma ResolvedAsTyped(db: Db, company: string, refs: seq<Ref>, id: string)
    requires Resolve(db, company, refs).Ok?
    ensures id in Resolve(db, company, refs).value <==> ResolvedSomewhere(db, Caller(company, false), refs, id)
    ensures id in Resolve(db, company, refs).value ==> ObjectId(id) == Some(id)
  {
    var c, out := Caller(company, false), Resolve(db, company, refs).value;
    ResolveAgreesWithGet(db, company, refs);
    if id in out {
      var k :| 0 <= k < |refs| && Looked(db, c, refs[k], id, out[id]);
      var j :| 0 <= j < |refs[k].ids| && ObjectId(refs[k].ids[j]) == Some(id) && Get(db, refs[k].kind, refs[k].ids[j], c) == Ok(out[id]);
      PrintedIdsAreStable(refs[k].ids[j]);
    }
  }

  /**
   * Validating a reference agrees with looking it up exactly when one that exists is spelled as
   * printed, and one that does not is not resolved under another list of the same call.
   */
  lemma ValidateAgreesExactly(db: Db, company: string, refs: seq<Ref>, i: nat, id: string)
    requires Resolve(db, company, refs).Ok? && i < |refs| && id in refs[i].ids && id != ""
    ensures var (c, invalid) := (Caller(company, false), Validate(db, company, refs).value);
            (id in invalid <==> Get(db, refs[i].kind, id, c).Refused?) <==>
            if Get(db, refs[i].kind, id, c).Ok? then ObjectId(id) == Some(id) else !ResolvedSomewhere(db, c, refs, id)
  {
    var c, out := Caller(company, false), Resolve(db, company, refs).value;
    InvalidExactly(out, refs, id);
    ResolvedAsTyped(db, company, refs, id);
    if Get(db, refs[i].kind, id, c).Ok? && ObjectId(id) == Some(id) {
      var j :| 0 <= j < |refs[i].ids| && refs[i].ids[j] == id;
      assert Looked(db, c, refs[i], id, Get(db, refs[i].kind, id, c).value);
    }
  }

  /** Switching off a vehicle group is accepted, and the group goes on reading as active. */
  lemma SwitchingOffAGroupDoesNothing(company: string, id: string)
    requires company != "" && ObjectId(id) == Some(id)
    ensures var (c, nothing) := (Caller(company, false), Db(map[], map[], map[], [], map[]));
            var made := Create(nothing, VEHICLE_GROUP, c, map["name" := "n"], id, false);
            var off := Update(made.0, VEHICLE_GROUP, id, c, map["isActive" := "false"], false);
            var read := Get(off.0, VEHICLE_GROUP, id, c);
            made.1.Ok? && off.1.Ok? && read.Ok? && Active(read.value)
  {
    var c, nothing := Caller(company, false), Db(map[], map[], map[], [], map[]);
    var payload := map["name" := "n"];
    assert Trim("n") == "n" && Field(payload, "name") == "n" && RequiredFields(VEHICLE_GROUP) == ["name"];
    CreatedIsStored(nothing, VEHICLE_GROUP, c, payload, id, false);
    var made := Create(nothing, VEHICLE_GROUP, c, payload, id, false).0;
    var off := Update(made, VEHICLE_GROUP, id, c, map["isActive" := "false"], false);
    ReadsBack(off.0, DocRef(VEHICLE_GROUP, id), id, c);
    DeactivationTakesEffectExactly(made, VEHICLE_GROUP, id, c, map["isActive" := "false"], false, c);
  }
}
