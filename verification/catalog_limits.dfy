/** Where the cached lists stop answering like the database: the exact conditions, and runs that go wrong. */
module CatalogLimits {
  import opened Wrappers
  import opened Text
  import opened Normalise
  import opened Keys
  import opened Records
  import opened Catalog
  import opened CatalogWrites
  import opened CatalogCache
  import opened CatalogQueries

  /** The answers of a run are those of the database alone. */
  ghost predicate AnswersAgree(db: Db, ops: seq<Op>, env: Env) {
    CachedRun(System(db, map[]), ops, env).1 == PlainRun(db, ops, env).1
  }

  /** A run of two operations, spelled out. */
  lemma TwoSteps(db: Db, a: Op, b: Op, env: Env)
    ensures CachedRun(System(db, map[]), [a, b], env).1 ==
              [CachedStep(System(db, map[]), a, env).1, CachedStep(CachedStep(System(db, map[]), a, env).0, b, env).1]
    ensures PlainRun(db, [a, b], env).1 == [PlainStep(db, a, env).1, PlainStep(PlainStep(db, a, env).0, b, env).1]
  {
    assert [a, b][1..] == [b] && [b][1..] == [];
    var s1, d1 := CachedStep(System(db, map[]), a, env).0, PlainStep(db, a, env).0;
    assert CachedRun(s1, [b], env).1 == [CachedStep(s1, b, env).1];
    assert PlainRun(d1, [b], env).1 == [PlainStep(d1, b, env).1];
  }

  /** Browsing twice under one key gives the first answer twice. */
  lemma SecondBrowseIsWrong(db: Db, kind: string, c: Caller, parent: string, p: Params, d: Caller, parent': string, q: Params, env: Env)
    requires Served(kind) && ListKey(c, kind, parent, p, env.fp) == ListKey(d, kind, parent', q, env.fp)
    requires List(db, kind, c, parent, p, env.cursor).Ok?
    requires List(db, kind, d, parent', q, env.cursor) != List(db, kind, c, parent, p, env.cursor)
    ensures !AnswersAgree(db, [Browse(kind, c, parent, p), Browse(kind, d, parent', q)], env)
  {
    var a, b := Browse(kind, c, parent, p), Browse(kind, d, parent', q);
    TwoSteps(db, a, b, env);
    var s1 := CachedStep(System(db, map[]), a, env).0;
    assert CachedStep(s1, b, env).1 == APage(List(db, kind, c, parent, p, env.cursor));
    assert CachedRun(System(db, map[]), [a, b], env).1[1] != PlainRun(db, [a, b], env).1[1];
  }

  // ----- Runs from the empty database -----

  const STAFF := Caller("", true)
  const EMPTY := Db(map[], map[], map[], [], map[])
  const FIRST_PAGE := Params(0, 20, [], [], "")

  /** An id as the service mints it. */
  predicate Minted(id: string) {
    ObjectId(id) == Some(id)
  }

  lemma IdsExist() returns (a: string, b: string)
    ensures Minted(a) && Minted(b) && a != b
  {
    a, b := seq(24, _ => 'a'), seq(24, _ => 'b');
    assert Lower(a) == a && Lower(b) == b && a[0] != b[0];
  }

  lemma NothingIsSwept(kind: string, c: Caller)
    ensures Invalidated(map[], kind, c) == map[]
  {
  }

  /** Writes before the first read leave the cache empty: the rest answers as from the database they made. */
  lemma WriteFirst(db: Db, c: Caller, w: Write, rest: seq<Op>, env: Env)
    ensures AnswersAgree(db, [Change(c, w)] + rest, env) <==> AnswersAgree(Written(db, c, w).0, rest, env)
  {
    var ops := [Change(c, w)] + rest;
    assert ops[0] == Change(c, w) && ops[1..] == rest;
    NothingIsSwept(w.kind, c);
    var start := System(db, map[]);
    assert CachedStep(start, ops[0], env) == (System(Written(db, c, w).0, map[]), AWrite(Written(db, c, w).1));
    var x, y, a := CachedRun(System(Written(db, c, w).0, map[]), rest, env).1, PlainRun(Written(db, c, w).0, rest, env).1, AWrite(Written(db, c, w).1);
    assert CachedRun(start, ops, env).1 == [a] + x && PlainRun(db, ops, env).1 == [a] + y;
    assert x == ([a] + x)[1..] && y == ([a] + y)[1..];
  }

  lemma TwoWritesFirst(c: Caller, v: Write, d: Caller, w: Write, rest: seq<Op>, env: Env)
    ensures AnswersAgree(EMPTY, [Change(c, v), Change(d, w)] + rest, env) <==>
            AnswersAgree(Written(Written(EMPTY, c, v).0, d, w).0, rest, env)
  {
    WriteFirst(EMPTY, c, v, [Change(d, w)] + rest, env);
    WriteFirst(Written(EMPTY, c, v).0, d, w, rest, env);
    assert [Change(c, v)] + ([Change(d, w)] + rest) == [Change(c, v), Change(d, w)] + rest;
  }

  // ----- Entries to tell questions apart by -----

  /** Staff add a brand: a shared one, or a company's. */
  function NewBrand(name: string, owner: Option<string>, id: string): Write {
    WCreate("brand", if owner.None? then map["name" := name] else map["name" := name, "companyId" := owner.value], id, false)
  }

  predicate OwnerTyped(owner: Option<string>) {
    owner.Some? ==> owner.value != "" && Trim(owner.value) == owner.value
  }

  lemma BrandIsAccepted(db: Db, name: string, owner: Option<string>, id: string)
    requires Trim(name) != "" && DocRef("brand", id) !in db.docs && OwnerTyped(owner)
    ensures Create(db, "brand", STAFF, NewBrand(name, owner, id).payload, id, false).1.Ok?
  {
    assert Field(NewBrand(name, owner, id).payload, "name") == name && RequiredFields("brand") == ["name"];
  }

  lemma BrandNameIsKept(name: string, owner: Option<string>, id: string)
    ensures Field(FieldsWritten("brand", TypedNew(NewBrand(name, owner, id).payload)), "name") == name
  {
    var typed := TypedNew(NewBrand(name, owner, id).payload);
    assert "name" in typed && typed["name"] == name;
    PlainFieldIsKept("brand", typed, "name");
  }

  lemma BrandIsOwnedAs(name: string, owner: Option<string>, id: string, given: Option<string>)
    requires OwnerTyped(owner) && OwnedAs(given, STAFF, "brand", NewBrand(name, owner, id).payload)
    ensures given == owner
  {
  }

  /** A brand as it is stored. */
  ghost predicate IsBrand(d: Doc, name: string, owner: Option<string>) {
    !d.deleted && d.companyId == owner && d.nameNormalised == Name(name)
  }

  lemma BrandIsAdded(db: Db, name: string, owner: Option<string>, id: string)
    requires Trim(name) != "" && DocRef("brand", id) !in db.docs && OwnerTyped(owner)
    ensures var db' := Written(db, STAFF, NewBrand(name, owner, id)).0;
            exists d :: IsBrand(d, name, owner) && db'.docs == db.docs[DocRef("brand", id) := d]
  {
    var payload := NewBrand(name, owner, id).payload;
    BrandIsAccepted(db, name, owner, id);
    BrandNameIsKept(name, owner, id);
    CreatedIsStored(db, "brand", STAFF, payload, id, false);
    var given :| OwnedAs(given, STAFF, "brand", payload)
      && Create(db, "brand", STAFF, payload, id, false).0.docs == db.docs[DocRef("brand", id) := DocWritten("brand", given, TypedNew(payload))];
    BrandIsOwnedAs(name, owner, id, given);
    assert IsBrand(DocWritten("brand", given, TypedNew(payload)), name, owner);
  }

  lemma BlankNames(search: string, name: string)
    requires Trim(name) == ""
    ensures Finds(search, name) <==> search == ""
  {
    assert Name(name) == "";
  }

  /** A search that is not empty misses a name of one letter. */
  lemma MissedName(search: string) returns (name: string)
    requires search != ""
    ensures Trim(name) != "" && !Finds(search, name)
  {
    assert Name("x") == "x" && Name("y") == "y";
    name := if Lower(search) == "x" then "y" else "x";
    assert |Lower(search)| == |search|;
    assert Lower(search) <= name ==> Lower(search) == name;
  }

  /** Searches that differ in what they find differ on some name that is not blank. */
  lemma TellingName(s: string, t: string) returns (name: string)
    requires !SameFinds(s, t)
    ensures Trim(name) != "" && Finds(s, name) != Finds(t, name)
  {
    name :| Finds(s, name) != Finds(t, name);
    if Trim(name) == "" {
      BlankNames(s, name);
      BlankNames(t, name);
      name := MissedName(if s == "" then t else s);
    }
  }

  lemma FoundName(s: string) returns (name: string)
    requires !FindsNothing(s)
    ensures Trim(name) != "" && Finds(s, name)
  {
    name :| Finds(s, name);
    if Trim(name) == "" {
      BlankNames(s, name);
      name := "x";
      assert Trim("x") == "x";
    }
  }

  // ----- Queries -----

  /** An honest database whose order depends on whether these sorts are asked for. */
  function OrderBy(a: string, b: string, sorts: seq<Sort>): Cursor {
    (asked: seq<Sort>, offset: int, limit: int, found: map<string, Doc>) =>
      if a !in found || b !in found then [] else if asked == sorts then [a, b] else [b, a]
  }

  lemma OrderByIsHonest(a: string, b: string, sorts: seq<Sort>)
    requires a != b
    ensures HonestCursor(OrderBy(a, b, sorts))
  {
  }

  lemma BrandListed(db: Db, id: string, name: string, p: Params, cursor: Cursor)
    requires exists d :: IsBrand(d, name, None) && db.docs == map[DocRef("brand", id) := d]
    ensures var r := List(db, "brand", STAFF, "", p, cursor); r.Ok? && (r.value.total > 0 <==> Finds(p.search, name))
  {
    var view := View(db, "brand", STAFF);
    assert view == map[id := db.docs[DocRef("brand", id)]];
    var found := Matches(view, "brand", "", p.search);
    if id in found { assert |found| > 0; } else { assert found == map[]; }
  }

  lemma SharedBrandKey(p: Params, q: Params, fp: Fingerprint)
    requires p.page == q.page && p.pageSize == q.pageSize && fp(QueryText(p)) == fp(QueryText(q))
    ensures ListKey(STAFF, "brand", "", p, fp) == ListKey(STAFF, "brand", "", q, fp)
  {
    assert ListParts(STAFF, "brand", "", p, fp) == ListParts(STAFF, "brand", "", q, fp);
  }

  function TwoSearches(p: Params, q: Params): seq<Op> {
    [Browse("brand", STAFF, "", p), Browse("brand", STAFF, "", q)]
  }

  /** Two searches told apart by one brand. */
  lemma SearchesGoWrong(p: Params, q: Params, name: string, id: string, env: Env)
    requires p.page == q.page && p.pageSize == q.pageSize && env.fp(QueryText(p)) == env.fp(QueryText(q))
    requires Trim(name) != "" && Finds(p.search, name) != Finds(q.search, name)
    ensures !AnswersAgree(EMPTY, [Change(STAFF, NewBrand(name, None, id))] + TwoSearches(p, q), env)
  {
    var db := Written(EMPTY, STAFF, NewBrand(name, None, id)).0;
    BrandIsAdded(EMPTY, name, None, id);
    BrandListed(db, id, name, p, env.cursor);
    BrandListed(db, id, name, q, env.cursor);
    SharedBrandKey(p, q, env.fp);
    SecondBrowseIsWrong(db, "brand", STAFF, "", p, STAFF, "", q, env);
    WriteFirst(EMPTY, STAFF, NewBrand(name, None, id), TwoSearches(p, q), env);
  }

  lemma FirstListed(db: Db, p: Params, cursor: Cursor, ids: seq<string>)
    requires |ids| > 0 && ids == cursor(p.sorts, Offset(p), p.pageSize, Matches(View(db, "brand", STAFF), "brand", "", p.search))
    ensures var r := List(db, "brand", STAFF, "", p, cursor); r.Ok? && |r.value.entries| > 0 && r.value.entries[0].id == ids[0]
  {
  }

  /** Two brands of one name, a shared one and a company's. */
  ghost predicate TwoBrands(db: Db, a: string, b: string, name: string) {
    && DocRef("brand", a) in db.docs && IsBrand(db.docs[DocRef("brand", a)], name, None)
    && DocRef("brand", b) in db.docs && IsBrand(db.docs[DocRef("brand", b)], name, Some("c"))
  }

  lemma TwoBrandsAreAdded(a: string, b: string, name: string)
    requires a != b && Trim(name) != ""
    ensures TwoBrands(Written(Written(EMPTY, STAFF, NewBrand(name, None, a)).0, STAFF, NewBrand(name, Some("c"), b)).0, a, b, name)
  {
    BrandIsAdded(EMPTY, name, None, a);
    assert Trim("c") == "c";
    BrandIsAdded(Written(EMPTY, STAFF, NewBrand(name, None, a)).0, name, Some("c"), b);
  }

  lemma BothFound(db: Db, a: string, b: string, name: string, p: Params)
    requires TwoBrands(db, a, b, name) && Finds(p.search, name)
    ensures var found := Matches(View(db, "brand", STAFF), "brand", "", p.search); a in found && b in found
  {
  }

  lemma OrdersDiffer(db: Db, p: Params, q: Params, name: string, a: string, b: string, cursor: Cursor)
    requires p.sorts != q.sorts && a != b && cursor == OrderBy(a, b, p.sorts)
    requires TwoBrands(db, a, b, name) && Finds(p.search, name) && Finds(q.search, name)
    ensures var (x, y) := (List(db, "brand", STAFF, "", p, cursor), List(db, "brand", STAFF, "", q, cursor)); x.Ok? && x != y
  {
    BothFound(db, a, b, name, p);
    BothFound(db, a, b, name, q);
    FirstListed(db, p, cursor, [a, b]);
    FirstListed(db, q, cursor, [b, a]);
  }

  /** Two orders told apart by two brands of one name. */
  lemma SortsGoWrong(p: Params, q: Params, name: string, a: string, b: string, env: Env)
    requires p.page == q.page && p.pageSize == q.pageSize && env.fp(QueryText(p)) == env.fp(QueryText(q))
    requires p.sorts != q.sorts && a != b && env.cursor == OrderBy(a, b, p.sorts)
    requires Trim(name) != "" && Finds(p.search, name) && Finds(q.search, name)
    ensures !AnswersAgree(EMPTY, [Change(STAFF, NewBrand(name, None, a)), Change(STAFF, NewBrand(name, Some("c"), b))] + TwoSearches(p, q), env)
  {
    var v, w := NewBrand(name, None, a), NewBrand(name, Some("c"), b);
    var db := Written(Written(EMPTY, STAFF, v).0, STAFF, w).0;
    TwoBrandsAreAdded(a, b, name);
    OrdersDiffer(db, p, q, name, a, b, env.cursor);
    SharedBrandKey(p, q, env.fp);
    SecondBrowseIsWrong(db, "brand", STAFF, "", p, STAFF, "", q, env);
    TwoWritesFirst(STAFF, v, STAFF, w, TwoSearches(p, q), env);
  }

  ghost predicate AllOrdinary(ops: seq<Op>, asked: iset<Params>) {
    forall i :: 0 <= i < |ops| ==> Ordinary(ops[i], asked)
  }

  /** Staff add brands and look twice. */
  lemma LooksAreOrdinary(writes: seq<Op>, p: Params, q: Params, asked: iset<Params>)
    requires p in asked && q in asked
    requires forall i :: 0 <= i < |writes| ==> writes[i].Change? && writes[i].c == STAFF && writes[i].w.WCreate? && writes[i].w.kind == "brand"
    ensures AllOrdinary(writes + TwoSearches(p, q), asked)
  {
  }

  /** Two queries of one page and fingerprint that ask for different listings get one answer where there are two. */
  lemma ConfusedQueriesGoWrong(p: Params, q: Params, fp: Fingerprint, asked: iset<Params>) returns (ops: seq<Op>, env: Env)
    requires p in asked && q in asked
    requires p.page == q.page && p.pageSize == q.pageSize && fp(QueryText(p)) == fp(QueryText(q)) && !SameListing(p, q)
    ensures env.fp == fp && HonestCursor(env.cursor) && AllOrdinary(ops, asked) && !AnswersAgree(EMPTY, ops, env)
  {
    var a, b := IdsExist();
    env := Env(OrderBy(a, b, p.sorts), fp);
    OrderByIsHonest(a, b, p.sorts);
    if !SameFinds(p.search, q.search) {
      var name := TellingName(p.search, q.search);
      var writes := [Change(STAFF, NewBrand(name, None, a))];
      SearchesGoWrong(p, q, name, a, env);
      LooksAreOrdinary(writes, p, q, asked);
      ops := writes + TwoSearches(p, q);
    } else {
      var name := FoundName(p.search);
      var writes := [Change(STAFF, NewBrand(name, None, a)), Change(STAFF, NewBrand(name, Some("c"), b))];
      assert Finds(p.search, name) <==> Finds(q.search, name);
      SortsGoWrong(p, q, name, a, b, env);
      LooksAreOrdinary(writes, p, q, asked);
      ops := writes + TwoSearches(p, q);
    }
  }

  /** No run over these queries is answered otherwise than by the database. */
  ghost predicate Invisible(fp: Fingerprint, asked: iset<Params>) {
    forall db, ops, env: Env :: env.fp == fp && HonestCursor(env.cursor) && NamesFolded(db) && AllOrdinary(ops, asked) ==> AnswersAgree(db, ops, env)
  }

  lemma TellingIsEnough(fp: Fingerprint, asked: iset<Params>)
    requires Telling(fp, asked)
    ensures Invisible(fp, asked)
  {
    forall db, ops, env: Env | env.fp == fp && HonestCursor(env.cursor) && NamesFolded(db) && AllOrdinary(ops, asked) ensures AnswersAgree(db, ops, env) {
      CacheIsInvisible(db, ops, env, asked);
    }
  }

  lemma TellingIsNeeded(p: Params, q: Params, fp: Fingerprint, asked: iset<Params>)
    requires p in asked && q in asked && p.page == q.page && p.pageSize == q.pageSize
    requires fp(QueryText(p)) == fp(QueryText(q)) && !SameListing(p, q)
    ensures !Invisible(fp, asked)
  {
    var ops, env := ConfusedQueriesGoWrong(p, q, fp, asked);
    assert NamesFolded(EMPTY);
  }

  /**
   * The cache is invisible to every run over a set of queries if and only if the fingerprints
   * tell apart, among the queries of one page, those that ask for different listings. The run
   * that goes wrong starts from nothing.
   */
  lemma InvisibleExactly(fp: Fingerprint, asked: iset<Params>)
    requires Colonless(fp)
    ensures Invisible(fp, asked) <==> Telling(fp, asked)
  {
    if Telling(fp, asked) {
      TellingIsEnough(fp, asked);
    } else {
      var p, q :| p in asked && q in asked && p.page == q.page && p.pageSize == q.pageSize
        && fp(QueryText(p)) == fp(QueryText(q)) && !SameListing(p, q);
      TellingIsNeeded(p, q, fp, asked);
    }
  }

  /** A search that ends in the text of a sort reads like the search with that sort. */
  lemma BarInSearchHidesSort(search: string, sort: Sort)
    ensures QueryText(Params(0, 20, [], [], search + "|" + SortText(sort))) == QueryText(Params(0, 20, [], [sort], search))
  {
    var x, y := Params(0, 20, [], [], search + "|" + SortText(sort)), Params(0, 20, [], [sort], search);
    PlainText(x);
    assert Segments(y) == [SortText(sort)];
    JoinAppend([search], SortText(sort), '|');
  }

  /** Add a brand, browse by a sort, then search for the text of that sort: the sorted listing is the answer, under any fingerprint. */
  lemma SortSpelledAsSearchGoesWrong(sort: Sort, id: string, env: Env)
    ensures var (p, q) := (Params(0, 20, [], [sort], ""), Params(0, 20, [], [], "|" + SortText(sort)));
            !AnswersAgree(EMPTY, [Change(STAFF, NewBrand("x", None, id))] + TwoSearches(p, q), env)
  {
    var p, q := Params(0, 20, [], [sort], ""), Params(0, 20, [], [], "|" + SortText(sort));
    BarInSearchHidesSort("", sort);
    assert "" + "|" + SortText(sort) == q.search;
    assert Trim("x") == "x" && Name("x") == "x" && |Lower(q.search)| > 1;
    SearchesGoWrong(p, q, "x", id, env);
  }

  // ----- Callers and parents -----

  /** Two callers by see the same entries of every database. */
  predicate SameEyes(c: Caller, d: Caller) {
    c.staff == d.staff && (c.staff || c.company == d.company)
  }

  function ParentText(parent: string): string {
    if parent == "" then "-" else parent
  }

  /** Scope and parent read alike in a key. */
  predicate ReadAlike(c: Caller, parent: string, d: Caller, parent': string) {
    Clean(ScopeOf(c)) == Clean(ScopeOf(d)) && Clean(ParentText(parent)) == Clean(ParentText(parent'))
  }

  lemma ReadAlikeSharesKey(kind: string, c: Caller, parent: string, d: Caller, parent': string, p: Params, fp: Fingerprint)
    ensures ListKey(c, kind, parent, p, fp) == ListKey(d, kind, parent', p, fp) <==> ReadAlike(c, parent, d, parent')
  {
    var ps, qs := ListParts(c, kind, parent, p, fp), ListParts(d, kind, parent', p, fp);
    if ListKey(c, kind, parent, p, fp) == ListKey(d, kind, parent', p, fp) {
      CleanedPartsAgree(ps, qs);
      assert Clean(ps[2]) == Clean(qs[2]) && Clean(ps[5]) == Clean(qs[5]);
    }
    if ReadAlike(c, parent, d, parent') {
      assert forall i :: 0 <= i < 9 ==> Clean(ps[i]) == Clean(qs[i]);
      assert CleanAll(ps) == CleanAll(qs);
    }
  }

  /** Somebody adds a sub-category and then gives it another parent. */
  function NewSubCategory(owner: Option<string>, id: string): Write {
    var typed := map["name" := "n", "categoryId" := "x"];
    WCreate("itemSubCategory", if owner.None? then typed else typed["companyId" := owner.value], id, false)
  }

  function Reparented(id: string, parent: string): Write {
    WUpdate("itemSubCategory", id, map["categoryId" := parent], false)
  }

  /** The owner a writer may give: staff anybody or nobody, a company itself. */
  predicate MayGive(who: Caller, owner: Option<string>) {
    if who.staff then owner.Some? ==> owner.value != "" && Trim(owner.value) == owner.value
    else who.company != "" && owner == Some(who.company)
  }

  function OneEntry(who: Caller, owner: Option<string>, id: string, parent: string): Db {
    Written(Written(EMPTY, who, NewSubCategory(owner, id)).0, who, Reparented(id, parent)).0
  }

  lemma SubCategoryIsAdded(who: Caller, owner: Option<string>, id: string)
    requires MayGive(who, owner)
    ensures var (db, r) := Written(EMPTY, who, NewSubCategory(owner, id));
      && r.Ok? && db.docs.Keys == {DocRef("itemSubCategory", id)}
      && var d := db.docs[DocRef("itemSubCategory", id)]; !d.deleted && d.companyId == owner
  {
    var payload := NewSubCategory(owner, id).payload;
    assert Trim("n") == "n" && Trim("x") == "x";
    assert Field(payload, "name") == "n" && Field(payload, "categoryId") == "x" && RequiredFields("itemSubCategory") == ["name"];
    CreatedIsStored(EMPTY, "itemSubCategory", who, payload, id, false);
  }

  lemma ParentIsKept(fields: map<string, string>, parent: string)
    ensures Field(FieldsWritten("itemSubCategory", fields + Unreserved(map["categoryId" := parent])), "categoryId") == parent
  {
    var typed := fields + Unreserved(map["categoryId" := parent]);
    assert "categoryId" in typed && typed["categoryId"] == parent;
    PlainFieldIsKept("itemSubCategory", typed, "categoryId");
  }

  lemma SubCategoryIsReparented(db: Db, who: Caller, owner: Option<string>, id: string, parent: string)
    requires Minted(id) && MayGive(who, owner) && db.docs.Keys == {DocRef("itemSubCategory", id)}
    requires var d := db.docs[DocRef("itemSubCategory", id)]; !d.deleted && d.companyId == owner
    ensures var (db', r) := Written(db, who, Reparented(id, parent));
      && r.Ok? && db'.docs.Keys == {DocRef("itemSubCategory", id)}
      && var d := db'.docs[DocRef("itemSubCategory", id)];
         !d.deleted && d.companyId == owner && Field(d.fields, "categoryId") == parent
  {
    var ref := DocRef("itemSubCategory", id);
    ParentIsKept(db.docs[ref].fields, parent);
    AuthorityExactly(db, "itemSubCategory", id, who);
    assert Load(db, "itemSubCategory", id, who) == Ok(ref);
  }

  lemma OneEntryIsThere(who: Caller, owner: Option<string>, id: string, parent: string)
    requires Minted(id) && MayGive(who, owner)
    ensures var db := OneEntry(who, owner, id, parent);
      && db.docs.Keys == {DocRef("itemSubCategory", id)}
      && var d := db.docs[DocRef("itemSubCategory", id)];
         !d.deleted && d.companyId == owner && Field(d.fields, "categoryId") == parent
  {
    SubCategoryIsAdded(who, owner, id);
    SubCategoryIsReparented(Written(EMPTY, who, NewSubCategory(owner, id)).0, who, owner, id, parent);
  }

  /** Whether a listing counts an entry of this owner and parent. */
  predicate Counts(owner: Option<string>, of: string, c: Caller, parent: string) {
    Visible(Doc(owner, "", map[], false), c) && (parent == "" || of == parent)
  }

  lemma ListsOneOrNone(db: Db, id: string, owner: Option<string>, of: string, c: Caller, parent: string, env: Env)
    requires db.docs.Keys == {DocRef("itemSubCategory", id)}
    requires var d := db.docs[DocRef("itemSubCategory", id)]; !d.deleted && d.companyId == owner && Field(d.fields, "categoryId") == of
    ensures var r := List(db, "itemSubCategory", c, parent, FIRST_PAGE, env.cursor);
            r.Ok? && (r.value.total > 0 <==> Counts(owner, of, c, parent))
  {
    var found := Matches(View(db, "itemSubCategory", c), "itemSubCategory", parent, "");
    if Counts(owner, of, c, parent) { assert id in found; } else { assert found == map[]; }
  }

  /** Some entry one of two different questions counts and the other does not, and by may write it. */
  lemma TellingEntry(c: Caller, parent: string, d: Caller, parent': string) returns (who: Caller, owner: Option<string>, of: string)
    requires !(SameEyes(c, d) && parent == parent')
    ensures MayGive(who, owner) && Counts(owner, of, c, parent) != Counts(owner, of, d, parent')
  {
    who := STAFF;
    if parent != parent' {
      owner, of := None, if parent == "" || parent' == "" then "" else parent;
    } else {
      of := parent;
      assert Trim("x") == "x" && Trim("y") == "y";
      if c.staff {
        owner := Some(if d.company == "x" then "y" else "x");
      } else if d.staff {
        owner := Some(if c.company == "x" then "y" else "x");
      } else {
        who := if c.company == "" then d else c;
        owner := Some(who.company);
      }
    }
  }

  /** Two listings of one page, one after the other. */
  function TwoLooks(kind: string, c: Caller, parent: string, d: Caller, parent': string, p: Params): seq<Op> {
    [Browse(kind, c, parent, p), Browse(kind, d, parent', p)]
  }

  /** The database some list writes made from nothing. */
  ghost predicate Made(db: Db) {
    exists writes :: db == AllWritten(EMPTY, writes)
  }

  ghost predicate BothRight(c: Caller, parent: string, d: Caller, parent': string, env: Env) {
    forall db, kind, p :: Made(db) && Served(kind) ==> AnswersAgree(db, TwoLooks(kind, c, parent, d, parent', p), env)
  }

  /** After a first look the cache holds its answer, if it was one, and nothing else. */
  lemma FirstLookCaches(db: Db, kind: string, c: Caller, parent: string, p: Params, env: Env)
    ensures var s1 := CachedStep(System(db, map[]), Browse(kind, c, parent, p), env).0;
            var r := List(db, kind, c, parent, p, env.cursor);
            s1 == System(db, if r.Ok? then map[ListKey(c, kind, parent, p, env.fp) := CachedPage(r.value)] else map[])
  {
  }

  lemma LookIsRight(s: System, kind: string, d: Caller, parent: string, p: Params, env: Env)
    requires var k := ListKey(d, kind, parent, p, env.fp);
             k in s.cache ==> List(s.db, kind, d, parent, p, env.cursor).Ok?
                              && s.cache[k] == CachedPage(List(s.db, kind, d, parent, p, env.cursor).value)
    ensures CachedStep(s, Browse(kind, d, parent, p), env).1 == APage(List(s.db, kind, d, parent, p, env.cursor))
  {
  }

  lemma SameEyesSameList(db: Db, kind: string, c: Caller, d: Caller, parent: string, p: Params, cursor: Cursor)
    requires SameEyes(c, d)
    ensures List(db, kind, c, parent, p, cursor) == List(db, kind, d, parent, p, cursor)
  {
    assert View(db, kind, c) == View(db, kind, d);
  }

  lemma SecondLookIsRight(db: Db, kind: string, c: Caller, parent: string, d: Caller, parent': string, p: Params, env: Env)
    requires !ReadAlike(c, parent, d, parent') || (SameEyes(c, d) && parent == parent')
    ensures var s1 := CachedStep(System(db, map[]), Browse(kind, c, parent, p), env).0;
            CachedStep(s1, Browse(kind, d, parent', p), env).1 == APage(List(db, kind, d, parent', p, env.cursor))
  {
    var s1 := CachedStep(System(db, map[]), Browse(kind, c, parent, p), env).0;
    FirstLookCaches(db, kind, c, parent, p, env);
    ReadAlikeSharesKey(kind, c, parent, d, parent', p, env.fp);
    if SameEyes(c, d) { SameEyesSameList(db, kind, c, d, parent, p, env.cursor); }
    LookIsRight(s1, kind, d, parent', p, env);
  }

  lemma DifferentKeysAreRight(db: Db, kind: string, c: Caller, parent: string, d: Caller, parent': string, p: Params, env: Env)
    requires !ReadAlike(c, parent, d, parent') || (SameEyes(c, d) && parent == parent')
    ensures AnswersAgree(db, TwoLooks(kind, c, parent, d, parent', p), env)
  {
    TwoSteps(db, Browse(kind, c, parent, p), Browse(kind, d, parent', p), env);
    SecondLookIsRight(db, kind, c, parent, d, parent', p, env);
  }

  /** Different questions that read alike: on one entry somebody wrote, the second is answered wrongly. */
  lemma ReadAlikeGoesWrong(c: Caller, parent: string, d: Caller, parent': string, env: Env)
    returns (who: Caller, owner: Option<string>, id: string, of: string)
    requires ReadAlike(c, parent, d, parent') && !(SameEyes(c, d) && parent == parent')
    ensures Minted(id) && MayGive(who, owner)
    ensures !AnswersAgree(OneEntry(who, owner, id, of), TwoLooks("itemSubCategory", c, parent, d, parent', FIRST_PAGE), env)
  {
    who, owner, of := TellingEntry(c, parent, d, parent');
    var other;
    id, other := IdsExist();
    var db := OneEntry(who, owner, id, of);
    OneEntryIsThere(who, owner, id, of);
    ListsOneOrNone(db, id, owner, of, c, parent, env);
    ListsOneOrNone(db, id, owner, of, d, parent', env);
    ReadAlikeSharesKey("itemSubCategory", c, parent, d, parent', FIRST_PAGE, env.fp);
    SecondBrowseIsWrong(db, "itemSubCategory", c, parent, FIRST_PAGE, d, parent', FIRST_PAGE, env);
  }

  lemma OneEntryIsMade(who: Caller, owner: Option<string>, id: string, of: string)
    ensures Made(OneEntry(who, owner, id, of))
  {
    var writes := [(who, NewSubCategory(owner, id)), (who, Reparented(id, of))];
    assert writes[..1] == [(who, NewSubCategory(owner, id))] && writes[..1][..0] == [];
    assert AllWritten(EMPTY, writes[..1]) == Written(EMPTY, who, NewSubCategory(owner, id)).0;
    assert AllWritten(EMPTY, writes) == OneEntry(who, owner, id, of);
  }

  /**
   * Two listings, one after the other, are answered rightly on every database the lists' writes
   * can make if and only if their scopes and parents read differently in the key, or they ask
   * the same. A company may therefore not read like a scope or like another company, and no
   * parent like "-".
   */
  lemma BothRightExactly(c: Caller, parent: string, d: Caller, parent': string, env: Env)
    ensures BothRight(c, parent, d, parent', env) <==> !ReadAlike(c, parent, d, parent') || (SameEyes(c, d) && parent == parent')
  {
    if ReadAlike(c, parent, d, parent') && !(SameEyes(c, d) && parent == parent') {
      var who, owner, id, of := ReadAlikeGoesWrong(c, parent, d, parent', env);
      OneEntryIsMade(who, owner, id, of);
    } else {
      forall db, kind, p | Made(db) && Served(kind) ensures AnswersAgree(db, TwoLooks(kind, c, parent, d, parent', p), env) {
        DifferentKeysAreRight(db, kind, c, parent, d, parent', p, env);
      }
    }
  }

  /** The same as a run from nothing: two writes and two listings. */
  lemma WrongRun(c: Caller, parent: string, d: Caller, parent': string, env: Env) returns (who: Caller, made: Write, moved: Write)
    requires ReadAlike(c, parent, d, parent') && !(SameEyes(c, d) && parent == parent')
    ensures !AnswersAgree(EMPTY, [Change(who, made), Change(who, moved)] + TwoLooks("itemSubCategory", c, parent, d, parent', FIRST_PAGE), env)
  {
    var owner, id, of;
    who, owner, id, of := ReadAlikeGoesWrong(c, parent, d, parent', env);
    made, moved := NewSubCategory(owner, id), Reparented(id, of);
    TwoWritesFirst(who, made, who, moved, TwoLooks("itemSubCategory", c, parent, d, parent', FIRST_PAGE), env);
  }

  /** After staff browse, a company called "staff" is shown what staff see, another company's entry included. */
  lemma CompanyCalledStaffGoesWrong(env: Env) returns (who: Caller, made: Write, moved: Write)
    ensures !AnswersAgree(EMPTY, [Change(who, made), Change(who, moved)] + TwoLooks("itemSubCategory", STAFF, "", Caller("staff", false), "", FIRST_PAGE), env)
  {
    who, made, moved := WrongRun(STAFF, "", Caller("staff", false), "", env);
  }

  /** After a caller without a company browses, a company called "global" is not shown its own entry. */
  lemma CompanyCalledGlobalGoesWrong(env: Env) returns (who: Caller, made: Write, moved: Write)
    ensures !AnswersAgree(EMPTY, [Change(who, made), Change(who, moved)] +
                                 TwoLooks("itemSubCategory", Caller("", false), "", Caller("global", false), "", FIRST_PAGE), env)
  {
    who, made, moved := WrongRun(Caller("", false), "", Caller("global", false), "", env);
  }

  /** After browsing without a parent, the parent "-" is answered with everything. */
  lemma DashParentGoesWrong(env: Env) returns (who: Caller, made: Write, moved: Write)
    ensures !AnswersAgree(EMPTY, [Change(who, made), Change(who, moved)] + TwoLooks("itemSubCategory", STAFF, "", STAFF, "-", FIRST_PAGE), env)
  {
    who, made, moved := WrongRun(STAFF, "", STAFF, "-", env);
  }

  // ----- Creations that skip the sweep -----

  /** An ordinary operation, or the creation of an entry of this list. */
  ghost predicate OrdinaryOrCreates(op: Op, kind: string, asked: iset<Params>) {
    Ordinary(op, asked) || (op.Change? && CleanCaller(op.c) && op.w.WCreate? && op.w.kind == kind)
  }

  /** Runs that also create entries of this list are answered as by the database. */
  ghost predicate CreationsAreSeen(kind: string, env: Env, asked: iset<Params>) {
    forall db, ops :: NamesFolded(db) && (forall i :: 0 <= i < |ops| ==> OrdinaryOrCreates(ops[i], kind, asked)) ==> AnswersAgree(db, ops, env)
  }

  lemma OneBadRunIsEnough(db: Db, ops: seq<Op>, kind: string, env: Env, asked: iset<Params>)
    requires NamesFolded(db) && forall i :: 0 <= i < |ops| ==> OrdinaryOrCreates(ops[i], kind, asked)
    requires !AnswersAgree(db, ops, env)
    ensures !CreationsAreSeen(kind, env, asked)
  {
  }

  lemma OwnedCreationsAreSeen(kind: string, env: Env, asked: iset<Params>)
    requires kind in OWNED && kind !in UNOWNED && HonestCursor(env.cursor) && Telling(env.fp, asked)
    ensures CreationsAreSeen(kind, env, asked)
  {
    forall db, ops | NamesFolded(db) && forall i :: 0 <= i < |ops| ==> OrdinaryOrCreates(ops[i], kind, asked) ensures AnswersAgree(db, ops, env) {
      CacheIsInvisible(db, ops, env, asked);
    }
  }

  lemma UnownedCreationsGoUnseen(kind: string, env: Env, asked: iset<Params>)
    requires kind in UNOWNED && FIRST_PAGE in asked
    ensures !CreationsAreSeen(kind, env, asked)
  {
    var id, _ := IdsExist();
    StaleRunIsAllowed(kind, id, asked);
    StaleRunDisagrees(kind, id, env);
    OneBadRunIsEnough(EMPTY, StaleRun(kind, id), kind, env, asked);
  }

  lemma OwnedOrNot(kind: string)
    requires Writable(kind)
    ensures kind in OWNED <==> kind !in UNOWNED
  {
  }

  /** Creations are seen exactly in the lists whose entries have an owner: for the two device lists the sweep is skipped. */
  lemma CreationsAreSeenExactly(kind: string, env: Env, asked: iset<Params>)
    requires Writable(kind) && HonestCursor(env.cursor) && Telling(env.fp, asked) && FIRST_PAGE in asked
    ensures CreationsAreSeen(kind, env, asked) <==> kind in OWNED
  {
    OwnedOrNot(kind);
    if kind in UNOWNED { UnownedCreationsGoUnseen(kind, env, asked); } else { OwnedCreationsAreSeen(kind, env, asked); }
  }

  /** A payload both device lists accept. */
  const DEVICE := map["vendor" := "v", "model" := "m", "code" := "c", "name" := "n"]

  /** Staff browse a device list, add a device, and browse again. */
  function StaleRun(kind: string, id: string): seq<Op> {
    [Browse(kind, STAFF, "", FIRST_PAGE), Change(STAFF, WCreate(kind, DEVICE, id, false)), Browse(kind, STAFF, "", FIRST_PAGE)]
  }

  lemma DeviceIsCreated(kind: string, id: string)
    requires kind in UNOWNED
    ensures var (db', r) := Create(EMPTY, kind, STAFF, DEVICE, id, false);
            r.Ok? && DocRef(kind, id) in db'.docs && !db'.docs[DocRef(kind, id)].deleted
  {
    forall i | 0 <= i < |RequiredFields(kind)| ensures Trim(Field(DEVICE, RequiredFields(kind)[i])) != "" {
      assert Field(DEVICE, RequiredFields(kind)[i]) in {"v", "m", "c", "n"};
    }
  }

  lemma CountsNone(kind: string, env: Env)
    requires Served(kind)
    ensures var r := List(EMPTY, kind, STAFF, "", FIRST_PAGE, env.cursor); r.Ok? && r.value.total == 0
  {
    assert Matches(View(EMPTY, kind, STAFF), kind, "", "") == map[];
  }

  lemma CountsSome(db: Db, kind: string, id: string, env: Env)
    requires Served(kind) && DocRef(kind, id) in db.docs && !db.docs[DocRef(kind, id)].deleted
    ensures var r := List(db, kind, STAFF, "", FIRST_PAGE, env.cursor); r.Ok? && r.value.total > 0
  {
    assert id in Matches(View(db, kind, STAFF), kind, "", "");
  }

  /** A run of three operations, spelled out. */
  lemma ThreeCachedSteps(db: Db, a: Op, b: Op, c: Op, env: Env)
    ensures var s1 := CachedStep(System(db, map[]), a, env).0;
            var s2 := CachedStep(s1, b, env).0;
            CachedRun(System(db, map[]), [a, b, c], env).1 ==
              [CachedStep(System(db, map[]), a, env).1, CachedStep(s1, b, env).1, CachedStep(s2, c, env).1]
  {
    assert [a, b, c][1..] == [b, c] && [b, c][1..] == [c] && [c][1..] == [];
    var s1 := CachedStep(System(db, map[]), a, env).0;
    var s2 := CachedStep(s1, b, env).0;
    assert CachedRun(s2, [c], env).1 == [CachedStep(s2, c, env).1];
    assert CachedRun(s1, [b, c], env).1 == [CachedStep(s1, b, env).1, CachedStep(s2, c, env).1];
  }

  lemma ThreePlainSteps(db: Db, a: Op, b: Op, c: Op, env: Env)
    ensures var d1 := PlainStep(db, a, env).0;
            var d2 := PlainStep(d1, b, env).0;
            PlainRun(db, [a, b, c], env).1 == [PlainStep(db, a, env).1, PlainStep(d1, b, env).1, PlainStep(d2, c, env).1]
  {
    assert [a, b, c][1..] == [b, c] && [b, c][1..] == [c] && [c][1..] == [];
    var d1 := PlainStep(db, a, env).0;
    var d2 := PlainStep(d1, b, env).0;
    assert PlainRun(d2, [c], env).1 == [PlainStep(d2, c, env).1];
    assert PlainRun(d1, [b, c], env).1 == [PlainStep(d1, b, env).1, PlainStep(d2, c, env).1];
  }

  /** A listing answered once is answered the same after a creation that skips the sweep. */
  lemma RememberedAfterCreate(db: Db, kind: string, w: Write, p: Params, env: Env)
    requires Served(kind) && SkipsSweep(w) && List(db, kind, STAFF, "", p, env.cursor).Ok?
    ensures var s1 := CachedStep(System(db, map[]), Browse(kind, STAFF, "", p), env).0;
            var s2 := CachedStep(s1, Change(STAFF, w), env).0;
            CachedStep(s2, Browse(kind, STAFF, "", p), env).1 == APage(List(db, kind, STAFF, "", p, env.cursor))
  {
    var s1 := CachedStep(System(db, map[]), Browse(kind, STAFF, "", p), env).0;
    assert CachedStep(s1, Change(STAFF, w), env).0.cache == s1.cache;
  }

  lemma ThirdIsRemembered(db: Db, kind: string, w: Write, env: Env, few: Page)
    requires Served(kind) && SkipsSweep(w) && List(db, kind, STAFF, "", FIRST_PAGE, env.cursor) == Ok(few)
    ensures var look := Browse(kind, STAFF, "", FIRST_PAGE);
            var cached := CachedRun(System(db, map[]), [look, Change(STAFF, w), look], env).1;
            |cached| == 3 && cached[2] == APage(Ok(few))
  {
    var look := Browse(kind, STAFF, "", FIRST_PAGE);
    ThreeCachedSteps(db, look, Change(STAFF, w), look, env);
    RememberedAfterCreate(db, kind, w, FIRST_PAGE, env);
  }

  lemma ThirdIsPlain(db: Db, kind: string, w: Write, env: Env, many: Page)
    requires List(Written(db, STAFF, w).0, kind, STAFF, "", FIRST_PAGE, env.cursor) == Ok(many)
    ensures var look := Browse(kind, STAFF, "", FIRST_PAGE);
            var plain := PlainRun(db, [look, Change(STAFF, w), look], env).1;
            |plain| == 3 && plain[2] == APage(Ok(many))
  {
    var look := Browse(kind, STAFF, "", FIRST_PAGE);
    ThreePlainSteps(db, look, Change(STAFF, w), look, env);
  }

  /** The second listing still counts none, where the database counts the new device. */
  lemma UnownedCreateGoesStale(kind: string, id: string, env: Env)
    requires kind in UNOWNED
    ensures var (cached, plain) := (CachedRun(System(EMPTY, map[]), StaleRun(kind, id), env).1, PlainRun(EMPTY, StaleRun(kind, id), env).1);
      && |cached| == |plain| == 3
      && cached[2].APage? && cached[2].page.Ok? && cached[2].page.value.total == 0
      && plain[2].APage? && plain[2].page.Ok? && plain[2].page.value.total > 0
  {
    var w := WCreate(kind, DEVICE, id, false);
    var db' := Written(EMPTY, STAFF, w).0;
    DeviceIsCreated(kind, id);
    CountsNone(kind, env);
    CountsSome(db', kind, id, env);
    ThirdIsRemembered(EMPTY, kind, w, env, List(EMPTY, kind, STAFF, "", FIRST_PAGE, env.cursor).value);
    ThirdIsPlain(EMPTY, kind, w, env, List(db', kind, STAFF, "", FIRST_PAGE, env.cursor).value);
  }

  lemma StaleRunDisagrees(kind: string, id: string, env: Env)
    requires kind in UNOWNED
    ensures !AnswersAgree(EMPTY, StaleRun(kind, id), env)
  {
    UnownedCreateGoesStale(kind, id, env);
  }

  lemma StaleRunIsAllowed(kind: string, id: string, asked: iset<Params>)
    requires kind in UNOWNED && FIRST_PAGE in asked
    ensures forall i :: 0 <= i < |StaleRun(kind, id)| ==> OrdinaryOrCreates(StaleRun(kind, id)[i], kind, asked)
  {
    assert Ordinary(Browse(kind, STAFF, "", FIRST_PAGE), asked);
    assert OrdinaryOrCreates(Change(STAFF, WCreate(kind, DEVICE, id, false)), kind, asked);
  }
}
