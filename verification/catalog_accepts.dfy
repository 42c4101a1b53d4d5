/** Which list writes are accepted, exactly, and that private lists stay private. */
module CatalogAccepts {
  import opened Wrappers
  import opened Text
  import opened Records
  import opened Catalog
  import opened CatalogWrites

  predicate Filled(payload: map<string, string>, field: string) {
    Trim(Field(payload, field)) != ""
  }

  /** What a new entry must say. */
  predicate GivesRequired(kind: string, payload: map<string, string>) {
    match kind
    case "trackerModel" => Filled(payload, "vendor") && Filled(payload, "model")
    case "sensorType" => Filled(payload, "code") && Filled(payload, "name")
    case "itemSubCategory" => Filled(payload, "name") && Filled(payload, "categoryId")
    case _ => Filled(payload, "name")
  }

  /** Lists of what belongs to one company: its customers, the goods it ships, the groups of its trucks. */
  predicate Private(kind: string) {
    kind in {"customer", "item", "vehicleGroup"}
  }

  /** Device lists are the staff's; a private entry needs an owner, who is the caller unless staff name one. */
  predicate MayCreate(kind: string, c: Caller, payload: map<string, string>) {
    if kind in {"trackerModel", "sensorType"} then c.staff
    else !c.staff || Filled(payload, "companyId") || !Private(kind)
  }

  lemma RequiredExactly(kind: string, payload: map<string, string>)
    requires Writable(kind)
    ensures HasRequired(kind, payload) <==> GivesRequired(kind, payload)
  {
    var fields := RequiredFields(kind);
    if kind in UNOWNED {
      assert |fields| == 2 && HasRequired(kind, payload) <==>
             Trim(Field(payload, fields[0])) != "" && Trim(Field(payload, fields[1])) != "";
    } else {
      assert |fields| == 1 && fields[0] == "name";
      assert HasRequired(kind, payload) <==>
             Trim(Field(payload, fields[0])) != "" && (kind == "itemSubCategory" ==> Trim(Field(payload, "categoryId")) != "");
    }
  }

  lemma PrivateIsUnshared(kind: string)
    requires kind in OWNED
    ensures kind !in SHAREABLE <==> Private(kind)
    ensures kind !in {"trackerModel", "sensorType"}
  {
  }

  /** A creation is accepted exactly so, and told what is wrong otherwise. */
  lemma CreatedExactly(db: Db, kind: string, c: Caller, payload: map<string, string>, newId: string, refused: bool)
    ensures Create(db, kind, c, payload, newId, refused).1 ==
            if !Served(kind) then Refused(UnknownKind)
            else if !Writable(kind) || !GivesRequired(kind, payload) then Refused(Validation)
            else if !MayCreate(kind, c, payload) then Refused(if kind in {"trackerModel", "sensorType"} then Forbidden else Validation)
            else if refused || DocRef(kind, newId) in db.docs then Refused(Validation)
            else Ok(newId)
  {
    if Writable(kind) {
      RequiredExactly(kind, payload);
      if kind !in UNOWNED { PrivateIsUnshared(kind); }
      assert Trim("") == "";
    }
  }

  /** What a caller who would change an entry is told first, if anything. */
  function Objection(db: Db, kind: string, raw: string, c: Caller): Option<Error> {
    if !Writable(kind) then Some(Validation)
    else if !Answers(db, kind, raw) then Some(NotFound)
    else if c.staff then None
    else if Owner(db, kind, raw) in {None, Some("")} then Some(Forbidden)
    else if Owner(db, kind, raw) != Some(c.company) then Some(NotFound)
    else None
  }

  /** An update is accepted exactly for a live entry of a writable list that the caller owns, or any such for staff. */
  lemma UpdatedExactly(db: Db, kind: string, raw: string, c: Caller, payload: map<string, string>, refused: bool)
    ensures Update(db, kind, raw, c, payload, refused).1 ==
            if Objection(db, kind, raw, c).Some? then Refused(Objection(db, kind, raw, c).value)
            else if refused then Refused(Validation) else Ok(ObjectId(raw).value)
  {
    AuthorityExactly(db, kind, raw, c);
  }

  lemma DeletedExactly(db: Db, kind: string, raw: string, c: Caller)
    ensures Delete(db, kind, raw, c).1 ==
            if Objection(db, kind, raw, c).Some? then Refused(Objection(db, kind, raw, c).value) else Ok(ObjectId(raw).value)
  {
    AuthorityExactly(db, kind, raw, c);
  }

  // ----- Private lists -----

  /** Every entry of a private list has an owner. */
  ghost predicate OwnersInv(db: Db) {
    forall ref :: ref in db.docs && Private(ref.kind) ==> db.docs[ref].companyId.Some?
  }

  lemma CreateKeepsOwners(db: Db, kind: string, c: Caller, payload: map<string, string>, newId: string, refused: bool)
    requires OwnersInv(db)
    ensures OwnersInv(Create(db, kind, c, payload, newId, refused).0)
  {
    if Create(db, kind, c, payload, newId, refused).1.Ok? {
      CreatedExactly(db, kind, c, payload, newId, refused);
      CreatedIsStored(db, kind, c, payload, newId, refused);
      var owner :| OwnedAs(owner, c, kind, payload)
        && Create(db, kind, c, payload, newId, refused).0.docs == db.docs[DocRef(kind, newId) := DocWritten(kind, owner, TypedNew(payload))];
      OwnerIsGiven(kind, c, payload, owner);
    } else {
      RefusedWriteIsNothing(db, c, WCreate(kind, payload, newId, refused));
    }
  }

  lemma OwnerIsGiven(kind: string, c: Caller, payload: map<string, string>, owner: Option<string>)
    requires OwnedAs(owner, c, kind, payload) && MayCreate(kind, c, payload)
    ensures Private(kind) ==> owner.Some?
  {
    assert Trim("") == "";
  }

  lemma WriteKeepsOwners(db: Db, c: Caller, w: Write)
    requires OwnersInv(db)
    ensures OwnersInv(Written(db, c, w).0)
  {
    if w.WCreate? {
      CreateKeepsOwners(db, w.kind, c, w.payload, w.newId, w.refused);
    } else if Written(db, c, w).1.Refused? {
      RefusedWriteIsNothing(db, c, w);
    } else {
      var touched := WriteTouchesOneEntry(db, c, w);
      var db' := Written(db, c, w).0;
      forall ref | ref in db'.docs && Private(ref.kind) ensures db'.docs[ref].companyId.Some? {
        WriteKeepsOwner(db, c, w, ref);
        TouchedWasThere(db, c, w, touched);
      }
    }
  }

  lemma TouchedWasThere(db: Db, c: Caller, w: Write, ref: DocRef)
    requires Written(db, c, w).1.Ok? && !w.WCreate? && ref.kind == w.kind && ObjectId(w.id) == Some(ref.id)
    ensures ref in db.docs
  {
    AuthorityExactly(db, w.kind, w.id, c);
  }

  /** So no two companies read the same customer, item or group. */
  lemma PrivateEntriesAreOnes(db: Db, kind: string, raw: string, a: string, b: string)
    requires OwnersInv(db) && Private(kind) && a != b
    ensures Get(db, kind, raw, Caller(a, false)).Refused? || Get(db, kind, raw, Caller(b, false)).Refused?
  {
    if ObjectId(raw).Some? {
      var ref := DocRef(kind, ObjectId(raw).value);
      ReadsBack(db, ref, raw, Caller(a, false));
      ReadsBack(db, ref, raw, Caller(b, false));
    }
  }
}
