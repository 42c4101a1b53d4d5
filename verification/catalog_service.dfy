/** The catalogue as the object the handlers call: lookups, sweeps and writes in the order the code makes them. */
module CatalogServices {
  import opened Wrappers
  import opened Text
  import opened Keys
  import opened Records
  import C = Catalog
  import CC = CatalogCache

  /** The fields a caller must not set, deleted one by one. */
  method StripReserved(payload: map<string, string>) returns (kept: map<string, string>)
    ensures kept == C.Unreserved(payload)
  {
    var reserved := ["_id", "id", "createdAt", "updatedAt", "deleted", "nameNormalised", "plateNormalised", "companyId"];
    kept := payload;
    for i := 0 to |reserved|
      invariant forall k :: k in kept <==> k in payload && k !in reserved[..i]
      invariant forall k :: k in kept ==> kept[k] == payload[k]
    {
      kept := kept - {reserved[i]};
    }
    assert reserved[..|reserved|] == reserved;
    assert forall k :: k in reserved <==> k in C.RESERVED;
  }

  /** The payload laid over the stored fields key by key, identity and ownership excepted. */
  method Merge(fields: map<string, string>, payload: map<string, string>, reserved: set<string>) returns (merged: map<string, string>)
    ensures merged == fields + (payload - reserved)
  {
    merged := fields;
    var todo := payload.Keys;
    while todo != {}
      invariant todo <= payload.Keys
      invariant forall k :: k in merged <==> k in fields || (k in payload && k !in todo && k !in reserved)
      invariant forall k :: k in payload && k !in todo && k !in reserved ==> merged[k] == payload[k]
      invariant forall k :: k in fields && (k !in payload || k in todo || k in reserved) ==> merged[k] == fields[k]
      decreases |todo|
    {
      var k :| k in todo;
      todo := todo - {k};
      if k !in reserved { merged := merged[k := payload[k]]; }
    }
    LaidOver(fields, payload, reserved, merged);
  }

  lemma LaidOver(fields: map<string, string>, payload: map<string, string>, reserved: set<string>, merged: map<string, string>)
    requires forall k :: k in merged <==> k in fields || (k in payload && k !in reserved)
    requires forall k :: k in payload && k !in reserved ==> merged[k] == payload[k]
    requires forall k :: k in fields && (k !in payload || k in reserved) ==> merged[k] == fields[k]
    ensures merged == fields + (payload - reserved)
  {
  }

  /** The ids of one list that are neither empty nor found. */
  method Missing(out: map<string, C.Entry>, ids: seq<string>) returns (missing: seq<string>)
    ensures missing == C.Unresolved(out, ids)
  {
    missing := [];
    for j := 0 to |ids|
      invariant missing == C.Unresolved(out, ids[..j])
    {
      assert ids[..j + 1][..j] == ids[..j];
      if ids[j] == "" { continue; }
      if ids[j] !in out { missing := missing + [ids[j]]; }
    }
    assert ids[..|ids|] == ids;
  }

  class CatalogService {
    const env: CC.Env
    var db: Db
    var cache: CC.Cache

    function Look(): CC.System
      reads this
    {
      CC.System(db, cache)
    }

    constructor (db: Db, env: CC.Env)
      ensures Look() == CC.System(db, map[]) && this.env == env
    {
      this.env := env;
      this.db := db;
      cache := map[];
    }

    method Get(kind: string, raw: string, c: C.Caller) returns (r: Reply<C.Entry>)
      modifies this`cache
      ensures (Look(), r) == CC.CachedGet(old(Look()), kind, raw, c)
    {
      if !C.Served(kind) { return Refused(UnknownKind); }
      var id := ObjectId(raw);
      if id.None? { return Refused(NotFound); }
      var key := Key(CC.EntryParts(c, kind, raw));
      if key in cache && cache[key].CachedEntry? { return Ok(cache[key].entry); }
      var view := C.View(db, kind, c);
      if id.value !in view { return Refused(NotFound); }
      var entry := C.EntryOf(kind, id.value, view[id.value]);
      cache := cache[key := CC.CachedEntry(entry)];
      return Ok(entry);
    }

    method List(kind: string, c: C.Caller, parent: string, p: C.Params) returns (r: Reply<C.Page>)
      modifies this`cache
      ensures (Look(), r) == CC.CachedList(old(Look()), kind, c, parent, p, env)
    {
      if !C.Served(kind) { return Refused(UnknownKind); }
      var text := CC.BuildQueryText(p);
      var key := Key(["masterdata", "catalog", CC.ScopeOf(c), kind, "list", if parent == "" then "-" else parent,
                      Itoa(p.page), Itoa(p.pageSize), env.fp(text)]);
      if key in cache && cache[key].CachedPage? { return Ok(cache[key].page); }
      if parent != "" && C.ParentField(kind) == "" { return Refused(Validation); }
      var page := C.PageOf(C.View(db, kind, c), kind, parent, p, env.cursor);
      cache := cache[key := CC.CachedPage(page)];
      return Ok(page);
    }

    /** One query for each list, its answers laid over those before; any unknown list refuses the whole. */
    method Resolve(company: string, refs: seq<C.Ref>) returns (r: Reply<map<string, C.Entry>>)
      ensures r == C.Resolve(db, company, refs)
    {
      var out := map[];
      for i := 0 to |refs|
        invariant C.Resolve(db, company, refs[..i]) == Ok(out)
      {
        assert refs[..i + 1][..i] == refs[..i];
        if !C.Served(refs[i].kind) {
          UnknownListRefuses(company, refs, i);
          return Refused(UnknownKind);
        }
        var view := C.View(db, refs[i].kind, C.Caller(company, false));
        out := out + C.ResolveIds(view, refs[i].kind, refs[i].ids);
      }
      assert refs[..|refs|] == refs;
      return Ok(out);
    }

    lemma {:induction false} UnknownListRefuses(company: string, refs: seq<C.Ref>, i: nat)
      requires i < |refs| && C.Resolve(db, company, refs[..i]).Ok? && !C.Served(refs[i].kind)
      ensures C.Resolve(db, company, refs) == Refused(UnknownKind)
    {
      var last := |refs| - 1;
      if i < last {
        assert refs[..last][..i] == refs[..i];
        UnknownListRefuses(company, refs[..last], i);
      }
    }

    /** Which of the references do not exist. */
    method Validate(company: string, refs: seq<C.Ref>) returns (r: Reply<seq<string>>)
      ensures r == C.Validate(db, company, refs)
    {
      var resolved := Resolve(company, refs);
      if resolved.Refused? { return Refused(resolved.error); }
      var out := resolved.value;
      var invalid: seq<string> := [];
      for i := 0 to |refs|
        invariant invalid == C.Invalid(out, refs[..i])
      {
        assert refs[..i + 1][..i] == refs[..i];
        var missing := Missing(out, refs[i].ids);
        invalid := invalid + missing;
      }
      assert refs[..|refs|] == refs;
      return Ok(invalid);
    }

    /** Removes every key below a prefix, one scanned key at a time. */
    method DeleteByPrefix(parts: seq<string>)
      modifies this`cache
      ensures cache == CC.Sweep(old(cache), parts)
    {
      var prefix := Prefix(parts);
      var todo := cache.Keys;
      while todo != {}
        invariant todo <= old(cache).Keys
        invariant forall k :: k in cache <==> k in old(cache) && (k in todo || !(prefix <= k))
        invariant forall k :: k in cache ==> cache[k] == old(cache)[k]
        decreases |todo|
      {
        var k :| k in todo;
        todo := todo - {k};
        if prefix <= k { cache := cache - {k}; }
      }
    }

    method Invalidate(kind: string, c: C.Caller)
      modifies this`cache
      ensures cache == CC.Invalidated(old(cache), kind, c)
    {
      if c.staff || c.company == "" {
        DeleteByPrefix(["masterdata", "catalog"]);
        return;
      }
      DeleteByPrefix(["masterdata", "catalog", c.company, kind]);
      DeleteByPrefix(["masterdata", "catalog", "staff", kind]);
    }

    /** The store writer's create: reserved fields dropped, active unless said otherwise. */
    method Insert(kind: string, owner: Option<string>, payload: map<string, string>, newId: string, refused: bool) returns (r: Reply<string>)
      modifies this`db
      ensures (db, r) == C.Inserted(old(db), kind, owner, payload, newId, refused)
    {
      var fields := StripReserved(payload);
      if "isActive" !in fields { fields := fields["isActive" := "true"]; }
      var ref := DocRef(kind, newId);
      if refused || ref in db.docs { return Refused(Validation); }
      db := db.(docs := db.docs[ref := C.DocWritten(kind, owner, fields)]);
      return Ok(newId);
    }

    method Create(kind: string, c: C.Caller, payload: map<string, string>, newId: string, refused: bool) returns (r: Reply<string>)
      modifies this`db, this`cache
      ensures (Look(), r) == CC.CachedWrite(old(Look()), c, C.WCreate(kind, payload, newId, refused))
    {
      if !C.Writable(kind) { return Refused(if C.Served(kind) then Validation else UnknownKind); }
      if !C.HasRequired(kind, payload) { return Refused(Validation); }
      if kind in C.UNOWNED {
        if !c.staff { return Refused(Forbidden); }
        r := Insert(kind, None, payload, newId, refused);
        return;  // before the sweep
      }
      var owner := C.ScopeFor(c, C.Field(payload, "companyId"));
      if owner.None? && kind !in C.SHAREABLE { return Refused(Validation); }
      r := Insert(kind, owner, payload, newId, refused);
      if r.Ok? { Invalidate(kind, c); }
    }

    method Update(kind: string, raw: string, c: C.Caller, payload: map<string, string>, refused: bool) returns (r: Reply<string>)
      modifies this`db, this`cache
      ensures (Look(), r) == CC.CachedWrite(old(Look()), c, C.WUpdate(kind, raw, payload, refused))
    {
      if !C.Writable(kind) { return Refused(Validation); }
      var loaded := C.Load(db, kind, raw, c);
      if loaded.Refused? { return Refused(loaded.error); }
      if refused { return Refused(Validation); }
      var d := db.docs[loaded.value];
      var merged := Merge(d.fields, payload, C.RESERVED);
      db := db.(docs := db.docs[loaded.value := C.DocWritten(kind, d.companyId, merged)]);
      Invalidate(kind, c);
      return Ok(loaded.value.id);
    }

    method Delete(kind: string, raw: string, c: C.Caller) returns (r: Reply<string>)
      modifies this`db, this`cache
      ensures (Look(), r) == CC.CachedWrite(old(Look()), c, C.WDelete(kind, raw))
    {
      if !C.Writable(kind) { return Refused(Validation); }
      var loaded := C.Load(db, kind, raw, c);
      if loaded.Refused? { return Refused(loaded.error); }
      var ref := loaded.value;
      db := db.(docs := db.docs[ref := db.docs[ref].(deleted := true)]);
      Invalidate(kind, c);
      UngroupVehicles(kind, raw);
      return Ok(ref.id);
    }

    /** Finds the vehicles of a retired group, and writes only if there are any. */
    method UngroupVehicles(kind: string, group: string)
      modifies this`db
      ensures db == old(db).(vehicles := if kind == VEHICLE_GROUP then C.Ungrouped(old(db).vehicles, group) else old(db).vehicles)
    {
      if kind != VEHICLE_GROUP { return; }
      var rows := set u | u in db.vehicles && db.vehicles[u].truckGroupId == Some(group);
      if rows == {} {
        assert forall u :: u in db.vehicles ==> u !in rows;
        assert C.Ungrouped(db.vehicles, group) == db.vehicles;
        return;
      }
      db := db.(vehicles := C.Ungrouped(db.vehicles, group));
    }
  }
}
