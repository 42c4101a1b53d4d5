/**
 * The reference lists behind their cache (catalog.go): reads keyed by tenant, list and query,
 * writes that sweep. The cached service answers what the database would.
 */
module CatalogCache {
  import opened Wrappers
  import opened Text
  import opened Keys
  import opened Records
  import Registry
  import RegistryFrames
  import opened Catalog
  import opened CatalogWrites

  // ----- Keys -----

  /** The tenant segment of a key. */
  function ScopeOf(c: Caller): string {
    if c.staff then "staff" else if c.company == "" then "global" else c.company
  }

  function EntryKey(c: Caller, kind: string, raw: string): string {
    KeyOf(EntryParts(c, kind, raw))
  }

  function EntryParts(c: Caller, kind: string, raw: string): seq<string> {
    ["masterdata", "catalog", ScopeOf(c), kind, "id", raw]
  }

  function ClauseText(f: Clause): string {
    "f:" + f.field + ":" + f.operator + ":" + f.value
  }

  function SortText(s: Sort): string {
    "s:" + s.field + ":" + (if s.desc then "true" else "false")
  }

  function Segments(p: Params): seq<string> {
    seq(|p.filters|, i requires 0 <= i < |p.filters| => ClauseText(p.filters[i]))
    + seq(|p.sorts|, i requires 0 <= i < |p.sorts| => SortText(p.sorts[i]))
  }

  /** The text a listing is fingerprinted by: the search, then each clause and sort behind a bar. */
  function QueryText(p: Params): string {
    Join([p.search] + Segments(p), '|')
  }

  type Fingerprint = string -> string

  function ListParts(c: Caller, kind: string, parent: string, p: Params, fp: Fingerprint): seq<string> {
    ["masterdata", "catalog", ScopeOf(c), kind, "list", if parent == "" then "-" else parent,
     Itoa(p.page), Itoa(p.pageSize), fp(QueryText(p))]
  }

  function ListKey(c: Caller, kind: string, parent: string, p: Params, fp: Fingerprint): string {
    KeyOf(ListParts(c, kind, parent, p, fp))
  }

  /** Appending a part appends a separator and the part. */
  lemma {:induction false} JoinAppend(parts: seq<string>, last: string, sep: char)
    requires |parts| > 0
    ensures Join(parts + [last], sep) == Join(parts, sep) + [sep] + last
  {
    var all := parts + [last];
    assert all[0] == parts[0] && all[1..] == parts[1..] + [last];
    if |parts| == 1 { assert all[1..] == [last]; } else { JoinAppend(parts[1..], last, sep); }
  }

  /** The text of the search and the first n segments. */
  ghost function TextUpTo(p: Params, n: nat): string
    requires n <= |Segments(p)|
  {
    Join([p.search] + Segments(p)[..n], '|')
  }

  lemma TextStep(p: Params, n: nat)
    requires n < |Segments(p)|
    ensures TextUpTo(p, n + 1) == TextUpTo(p, n) + "|" + Segments(p)[n]
  {
    JoinAppend([p.search] + Segments(p)[..n], Segments(p)[n], '|');
    assert [p.search] + Segments(p)[..n + 1] == [p.search] + Segments(p)[..n] + [Segments(p)[n]];
  }

  /** The builder that writes the query text piece by piece. */
  method BuildQueryText(p: Params) returns (text: string)
    ensures text == QueryText(p)
  {
    text := p.search;
    for i := 0 to |p.filters|
      invariant text == TextUpTo(p, i)
    {
      TextStep(p, i);
      text := text + "|" + ClauseText(p.filters[i]);
    }
    for i := 0 to |p.sorts|
      invariant text == TextUpTo(p, |p.filters| + i)
    {
      TextStep(p, |p.filters| + i);
      text := text + "|" + SortText(p.sorts[i]);
    }
    assert Segments(p)[..|p.filters| + |p.sorts|] == Segments(p);
  }

  // ----- Callers and parents that keys can tell apart -----

  /** A company id that is not mistaken for another scope. */
  predicate CleanCaller(c: Caller) {
    c.staff || (Free(c.company, ':') && c.company != "staff" && c.company != "global")
  }

  predicate CleanParent(parent: string) {
    Free(parent, ':') && parent != "-"
  }

  // ----- The service with and without its cache -----

  datatype Env = Env(cursor: Cursor, fp: Fingerprint)

  datatype Cached = CachedEntry(entry: Entry) | CachedPage(page: Page)

  type Cache = map<string, Cached>

  datatype System = System(db: Db, cache: Cache)

  datatype Op =
    | Ask(kind: string, raw: string, c: Caller)
    | Browse(kind: string, c: Caller, parent: string, p: Params)
    | Change(c: Caller, w: Write)
    | Evict(keys: set<string>)          // a lifetime running out, or the cache losing entries
    | Fleet(registry: Registry.Op)      // whatever the register does in between

  datatype Answer = AnEntry(entry: Reply<Entry>) | APage(page: Reply<Page>) | AWrite(id: Reply<string>) | Silence

  function PlainStep(db: Db, op: Op, env: Env): (Db, Answer) {
    match op
    case Ask(kind, raw, c) => (db, AnEntry(Get(db, kind, raw, c)))
    case Browse(kind, c, parent, p) => (db, APage(List(db, kind, c, parent, p, env.cursor)))
    case Change(c, w) => (Written(db, c, w).0, AWrite(Written(db, c, w).1))
    case Evict(_) => (db, Silence)
    case Fleet(o) => (Registry.Step(db, o).0, AWrite(Registry.Step(db, o).1))
  }

  function Sweep(cache: Cache, parts: seq<string>): Cache {
    map k | k in cache && !(PrefixOf(parts) <= k) :: cache[k]
  }

  /** A company's write sweeps its own view of the list and the staff view; any other write sweeps everything. */
  function Invalidated(cache: Cache, kind: string, c: Caller): Cache {
    if c.staff || c.company == "" then Sweep(cache, ["masterdata", "catalog"])
    else Sweep(Sweep(cache, ["masterdata", "catalog", c.company, kind]), ["masterdata", "catalog", "staff", kind])
  }

  /** Creating an entry of a list without owners returns before the sweep. */
  predicate SkipsSweep(w: Write) {
    w.WCreate? && w.kind in UNOWNED
  }

  function CachedGet(s: System, kind: string, raw: string, c: Caller): (System, Reply<Entry>) {
    var key := EntryKey(c, kind, raw);
    if Served(kind) && ObjectId(raw).Some? && key in s.cache && s.cache[key].CachedEntry? then (s, Ok(s.cache[key].entry))
    else
      var r := Get(s.db, kind, raw, c);
      (if r.Ok? then s.(cache := s.cache[key := CachedEntry(r.value)]) else s, r)
  }

  /** The lookup comes before the parent is checked. */
  function CachedList(s: System, kind: string, c: Caller, parent: string, p: Params, env: Env): (System, Reply<Page>) {
    var key := ListKey(c, kind, parent, p, env.fp);
    if Served(kind) && key in s.cache && s.cache[key].CachedPage? then (s, Ok(s.cache[key].page))
    else
      var r := List(s.db, kind, c, parent, p, env.cursor);
      (if r.Ok? then s.(cache := s.cache[key := CachedPage(r.value)]) else s, r)
  }

  function CachedWrite(s: System, c: Caller, w: Write): (System, Reply<string>) {
    var (db', r) := Written(s.db, c, w);
    (System(db', if r.Ok? && !SkipsSweep(w) then Invalidated(s.cache, w.kind, c) else s.cache), r)
  }

  function CachedStep(s: System, op: Op, env: Env): (System, Answer) {
    match op
    case Ask(kind, raw, c) => var (s', r) := CachedGet(s, kind, raw, c); (s', AnEntry(r))
    case Browse(kind, c, parent, p) => var (s', r) := CachedList(s, kind, c, parent, p, env); (s', APage(r))
    case Change(c, w) => var (s', r) := CachedWrite(s, c, w); (s', AWrite(r))
    case Evict(keys) => (s.(cache := s.cache - keys), Silence)
    case Fleet(o) => (s.(db := Registry.Step(s.db, o).0), AWrite(Registry.Step(s.db, o).1))
  }

  function PlainRun(db: Db, ops: seq<Op>, env: Env): (Db, seq<Answer>)
    decreases |ops|
  {
    if ops == [] then (db, [])
    else
      var (db', a) := PlainStep(db, ops[0], env);
      var (end, rest) := PlainRun(db', ops[1..], env);
      (end, [a] + rest)
  }

  function CachedRun(s: System, ops: seq<Op>, env: Env): (System, seq<Answer>)
    decreases |ops|
  {
    if ops == [] then (s, [])
    else
      var (s', a) := CachedStep(s, ops[0], env);
      var (end, rest) := CachedRun(s', ops[1..], env);
      (end, [a] + rest)
  }

  // ----- Keys decide answers -----

  /** Two searches that find the same names. */
  ghost predicate SameFinds(s: string, t: string) {
    forall name :: Finds(s, name) <==> Finds(t, name)
  }

  /** No folded name begins so: with two spaces, say. */
  ghost predicate FindsNothing(search: string) {
    forall name :: !Finds(search, name)
  }

  /** Two queries whose listings are the same whatever is stored; clauses are ignored, and nothing has no order. */
  ghost predicate SameListing(p: Params, q: Params) {
    SameFinds(p.search, q.search) && (p.sorts == q.sorts || FindsNothing(p.search))
  }

  /** Fingerprints have no colon, as hexadecimal digits have none. */
  ghost predicate Colonless(fp: Fingerprint) {
    forall x :: Free(fp(x), ':')
  }

  /** Among the queries asked, those of one page and one fingerprint ask for one listing. */
  ghost predicate Telling(fp: Fingerprint, asked: iset<Params>) {
    && Colonless(fp)
    && forall p, q :: p in asked && q in asked && p.page == q.page && p.pageSize == q.pageSize && fp(QueryText(p)) == fp(QueryText(q)) ==>
         SameListing(p, q)
  }

  lemma KindsAreClean(kind: string)
    requires Served(kind)
    ensures Free(kind, ':')
  {
  }

  lemma ScopesAreClean(c: Caller)
    requires CleanCaller(c)
    ensures Clean(ScopeOf(c)) == ScopeOf(c)
  {
  }

  /** Two clean callers share a scope only when they see the same entries. */
  lemma SameScopeSameView(c: Caller, d: Caller, db: Db, kind: string)
    requires CleanCaller(c) && CleanCaller(d) && ScopeOf(c) == ScopeOf(d)
    ensures View(db, kind, c) == View(db, kind, d)
  {
    assert c.staff == d.staff && (!c.staff ==> c.company == d.company);
  }

  lemma CleanedPartsAgree(ps: seq<string>, qs: seq<string>)
    requires KeyOf(ps) == KeyOf(qs)
    ensures |ps| == |qs| && forall i :: 0 <= i < |ps| ==> Clean(ps[i]) == Clean(qs[i])
  {
    KeysCollide(ps, qs);
    assert |CleanAll(ps)| == |ps| && |CleanAll(qs)| == |qs|;
    forall i | 0 <= i < |ps| ensures Clean(ps[i]) == Clean(qs[i]) {
      assert CleanAll(ps)[i] == Clean(ps[i]) && CleanAll(qs)[i] == Clean(qs[i]);
    }
  }

  /** An entry key is read by one question only. */
  lemma EntryKeyDecides(db: Db, c: Caller, kind: string, raw: string, d: Caller, kind': string, raw': string)
    requires CleanCaller(c) && CleanCaller(d) && Served(kind) && Served(kind')
    requires ObjectId(raw).Some? && ObjectId(raw').Some?
    requires EntryKey(c, kind, raw) == EntryKey(d, kind', raw')
    ensures Get(db, kind, raw, c) == Get(db, kind', raw', d)
  {
    var ps, qs := EntryParts(c, kind, raw), EntryParts(d, kind', raw');
    CleanedPartsAgree(ps, qs);
    assert Clean(ps[2]) == Clean(qs[2]) && Clean(ps[3]) == Clean(qs[3]) && Clean(ps[5]) == Clean(qs[5]);
    ScopesAreClean(c);
    ScopesAreClean(d);
    KindsAreClean(kind);
    KindsAreClean(kind');
    CleanIdentity(kind);
    CleanIdentity(kind');
    CleanIdentity(raw);
    CleanIdentity(raw');
    SameScopeSameView(c, d, db, kind);
  }

  ghost predicate Clear(c: Caller, parent: string, p: Params, asked: iset<Params>) {
    CleanCaller(c) && CleanParent(parent) && p in asked
  }

  lemma CleanedSame(x: string, y: string)
    requires Free(x, ':') && Free(y, ':')
    ensures Clean(x) == Clean(y) <==> x == y
  {
    CleanIdentity(x);
    CleanIdentity(y);
  }

  /** Two listings share a key exactly when scope, list, parent, page and fingerprint agree. */
  lemma ListKeyExactly(c: Caller, kind: string, parent: string, p: Params, d: Caller, kind': string, parent': string, q: Params, fp: Fingerprint)
    requires CleanCaller(c) && CleanParent(parent) && CleanCaller(d) && CleanParent(parent') && Served(kind) && Served(kind') && Colonless(fp)
    ensures ListKey(c, kind, parent, p, fp) == ListKey(d, kind', parent', q, fp) <==>
            && ScopeOf(c) == ScopeOf(d) && kind == kind' && parent == parent'
            && p.page == q.page && p.pageSize == q.pageSize && fp(QueryText(p)) == fp(QueryText(q))
  {
    var ps, qs := ListParts(c, kind, parent, p, fp), ListParts(d, kind', parent', q, fp);
    if ListKey(c, kind, parent, p, fp) == ListKey(d, kind', parent', q, fp) {
      CleanedPartsAgree(ps, qs);
      assert Clean(ps[2]) == Clean(qs[2]) && Clean(ps[3]) == Clean(qs[3]) && Clean(ps[5]) == Clean(qs[5]);
      assert Clean(ps[6]) == Clean(qs[6]) && Clean(ps[7]) == Clean(qs[7]) && Clean(ps[8]) == Clean(qs[8]);
      ScopesAreClean(c);
      ScopesAreClean(d);
      KindsAreClean(kind);
      KindsAreClean(kind');
      CleanedSame(kind, kind');
      CleanedSame(ps[5], qs[5]);
      ItoaInjective(p.page, q.page);
      ItoaInjective(q.page, p.page);
      ItoaInjective(p.pageSize, q.pageSize);
      ItoaInjective(q.pageSize, p.pageSize);
      CleanedSame(ps[6], qs[6]);
      CleanedSame(ps[7], qs[7]);
      CleanedSame(ps[8], qs[8]);
    }
  }

  lemma SameFindsSameMatch(db: Db, kind: string, c: Caller, parent: string, s: string, t: string, id: string)
    requires NamesFolded(db) && Served(kind) && SameFinds(s, t)
    ensures id in Matches(View(db, kind, c), kind, parent, s) <==> id in Matches(View(db, kind, c), kind, parent, t)
    ensures FindsNothing(s) ==> id !in Matches(View(db, kind, c), kind, parent, s)
  {
    if id in View(db, kind, c) {
      var fields := View(db, kind, c)[id].fields;
      var name := SearchedName(kind, fields);
      assert DocRef(kind, id) in db.docs;
      TwinIsSearched(kind, fields);
      assert Finds(s, name) <==> Finds(t, name);
      assert FindsNothing(s) ==> !Finds(s, name);
    }
  }

  lemma SameFindsSameMatches(db: Db, kind: string, c: Caller, parent: string, s: string, t: string)
    requires NamesFolded(db) && Served(kind) && SameFinds(s, t)
    ensures Matches(View(db, kind, c), kind, parent, s) == Matches(View(db, kind, c), kind, parent, t)
    ensures FindsNothing(s) ==> Matches(View(db, kind, c), kind, parent, s) == map[]
  {
    var x, y := Matches(View(db, kind, c), kind, parent, s), Matches(View(db, kind, c), kind, parent, t);
    forall id ensures (id in x <==> id in y) && (FindsNothing(s) ==> id !in x) {
      SameFindsSameMatch(db, kind, c, parent, s, t, id);
    }
    assert x.Keys == y.Keys;
    SameEntries(View(db, kind, c), x, y);
  }

  lemma SameEntries(view: map<string, Doc>, x: map<string, Doc>, y: map<string, Doc>)
    requires x.Keys == y.Keys
    requires (forall id :: id in x ==> id in view && x[id] == view[id]) && forall id :: id in y ==> id in view && y[id] == view[id]
    ensures x == y
  {
  }

  lemma FirstIsFound(ids: seq<string>, found: map<string, Doc>)
    requires Honest(ids, found)
    ensures ids != [] ==> ids[0] in found
  {
  }

  lemma OfNothingNothing(ids: seq<string>)
    requires Honest(ids, map[])
    ensures ids == []
  {
    FirstIsFound(ids, map[]);
  }

  lemma NothingIsOnePage(kind: string, p: Params, q: Params, cursor: Cursor, view: map<string, Doc>, parent: string)
    requires HonestCursor(cursor)
    requires Matches(view, kind, parent, p.search) == map[] == Matches(view, kind, parent, q.search)
    ensures PageOf(view, kind, parent, p, cursor) == PageOf(view, kind, parent, q, cursor)
  {
    var none: map<string, Doc> := map[];
    OfNothingNothing(cursor(p.sorts, Offset(p), p.pageSize, none));
    OfNothingNothing(cursor(q.sorts, Offset(q), q.pageSize, none));
  }

  lemma SameListingSamePage(db: Db, kind: string, c: Caller, parent: string, p: Params, q: Params, cursor: Cursor)
    requires NamesFolded(db) && HonestCursor(cursor) && Served(kind) && SameListing(p, q) && p.page == q.page && p.pageSize == q.pageSize
    ensures PageOf(View(db, kind, c), kind, parent, p, cursor) == PageOf(View(db, kind, c), kind, parent, q, cursor)
  {
    SameFindsSameMatches(db, kind, c, parent, p.search, q.search);
    if p.sorts != q.sorts { NothingIsOnePage(kind, p, q, cursor, View(db, kind, c), parent); }
  }

  lemma ListKeyDecides(db: Db, c: Caller, kind: string, parent: string, p: Params, d: Caller, kind': string, parent': string, q: Params,
                       env: Env, asked: iset<Params>)
    requires NamesFolded(db) && HonestCursor(env.cursor)
    requires Telling(env.fp, asked) && Clear(c, parent, p, asked) && Clear(d, parent', q, asked) && Served(kind) && Served(kind')
    requires ListKey(c, kind, parent, p, env.fp) == ListKey(d, kind', parent', q, env.fp)
    ensures List(db, kind, c, parent, p, env.cursor) == List(db, kind', d, parent', q, env.cursor)
  {
    ListKeyExactly(c, kind, parent, p, d, kind', parent', q, env.fp);
    SameScopeSameView(c, d, db, kind);
    SameListingSamePage(db, kind, c, parent, p, q, env.cursor);
  }

  lemma EntryIsNotList(c: Caller, kind: string, raw: string, d: Caller, kind': string, parent: string, p: Params, fp: Fingerprint)
    ensures EntryKey(c, kind, raw) != ListKey(d, kind', parent, p, fp)
  {
    if EntryKey(c, kind, raw) == ListKey(d, kind', parent, p, fp) {
      CleanedPartsAgree(EntryParts(c, kind, raw), ListParts(d, kind', parent, p, fp));
    }
  }

  // ----- Coherence -----

  /** What the cache holds for a question is what the database answers now. */
  ghost predicate EntryFresh(s: System, c: Caller, kind: string, raw: string) {
    EntryKey(c, kind, raw) in s.cache ==>
      Get(s.db, kind, raw, c).Ok? && s.cache[EntryKey(c, kind, raw)] == CachedEntry(Get(s.db, kind, raw, c).value)
  }

  ghost predicate PageFresh(s: System, c: Caller, kind: string, parent: string, p: Params, env: Env) {
    ListKey(c, kind, parent, p, env.fp) in s.cache ==>
      List(s.db, kind, c, parent, p, env.cursor).Ok?
      && s.cache[ListKey(c, kind, parent, p, env.fp)] == CachedPage(List(s.db, kind, c, parent, p, env.cursor).value)
  }

  ghost predicate Coherent(s: System, env: Env, asked: iset<Params>) {
    && (forall c, kind, raw :: CleanCaller(c) && Served(kind) && ObjectId(raw).Some? ==> EntryFresh(s, c, kind, raw))
    && (forall c, kind, parent, p :: Clear(c, parent, p, asked) && Served(kind) ==> PageFresh(s, c, kind, parent, p, env))
  }

  lemma AskKeepsCoherence(s: System, kind: string, raw: string, c: Caller, env: Env, asked: iset<Params>)
    requires Coherent(s, env, asked) && CleanCaller(c)
    ensures var (s', r) := CachedGet(s, kind, raw, c);
            Coherent(s', env, asked) && r == Get(s.db, kind, raw, c) && s'.db == s.db
  {
    if Served(kind) && ObjectId(raw).Some? { assert EntryFresh(s, c, kind, raw); }
    var s' := CachedGet(s, kind, raw, c).0;
    if s' != s {
      forall d, kind', raw' | CleanCaller(d) && Served(kind') && ObjectId(raw').Some? ensures EntryFresh(s', d, kind', raw') {
        assert EntryFresh(s, d, kind', raw');
        if EntryKey(d, kind', raw') == EntryKey(c, kind, raw) { EntryKeyDecides(s.db, d, kind', raw', c, kind, raw); }
      }
      forall d, kind', parent, p | Clear(d, parent, p, asked) && Served(kind') ensures PageFresh(s', d, kind', parent, p, env) {
        assert PageFresh(s, d, kind', parent, p, env);
        EntryIsNotList(c, kind, raw, d, kind', parent, p, env.fp);
      }
    }
  }

  lemma BrowseKeepsCoherence(s: System, kind: string, c: Caller, parent: string, p: Params, env: Env, asked: iset<Params>)
    requires Coherent(s, env, asked) && NamesFolded(s.db) && HonestCursor(env.cursor) && Telling(env.fp, asked) && Clear(c, parent, p, asked)
    ensures var (s', r) := CachedList(s, kind, c, parent, p, env);
            Coherent(s', env, asked) && r == List(s.db, kind, c, parent, p, env.cursor) && s'.db == s.db
  {
    if Served(kind) { assert PageFresh(s, c, kind, parent, p, env); }
    var s' := CachedList(s, kind, c, parent, p, env).0;
    if s' != s {
      forall d, kind', raw | CleanCaller(d) && Served(kind') && ObjectId(raw).Some? ensures EntryFresh(s', d, kind', raw) {
        assert EntryFresh(s, d, kind', raw);
        EntryIsNotList(d, kind', raw, c, kind, parent, p, env.fp);
      }
      forall d, kind', parent', q | Clear(d, parent', q, asked) && Served(kind') ensures PageFresh(s', d, kind', parent', q, env) {
        assert PageFresh(s, d, kind', parent', q, env);
        if ListKey(d, kind', parent', q, env.fp) == ListKey(c, kind, parent, p, env.fp) {
          ListKeyDecides(s.db, d, kind', parent', q, c, kind, parent, p, env, asked);
        }
      }
    }
  }

  /** A sweep takes every key below its prefix. */
  lemma SweptKeysAreGone(cache: Cache, ps: seq<string>, qs: seq<string>)
    requires |ps| < |qs| && forall i :: 0 <= i < |ps| ==> ps[i] == qs[i]
    ensures KeyOf(qs) !in Sweep(cache, ps)
  {
    SweepIsExact(ps, qs);
    assert CleanAll(ps) == CleanAll(qs)[..|ps|];
  }

  /** Keys of the list written, under a scope the write can change, do not survive it. */
  lemma SurvivorsAreElsewhere(cache: Cache, kind: string, c: Caller, d: Caller, qs: seq<string>)
    requires |qs| > 4 && qs[..4] == ["masterdata", "catalog", ScopeOf(d), kind]
    requires c.staff || c.company == "" || d.staff || d.company == c.company
    ensures KeyOf(qs) !in Invalidated(cache, kind, c)
  {
    assert qs[0] == "masterdata" && qs[1] == "catalog" && qs[2] == ScopeOf(d) && qs[3] == kind;
    if c.staff || c.company == "" {
      SweptKeysAreGone(cache, ["masterdata", "catalog"], qs);
    } else if d.staff {
      SweptKeysAreGone(Sweep(cache, ["masterdata", "catalog", c.company, kind]), ["masterdata", "catalog", "staff", kind], qs);
    } else {
      SweptKeysAreGone(cache, ["masterdata", "catalog", c.company, kind], qs);
    }
  }

  /** A company's write to this list shows to nobody but itself and staff, and in no other list. */
  ghost predicate ShowsAtHome(db: Db, db': Db, kind: string, c: Caller) {
    !c.staff ==> forall kind', d: Caller :: kind' != kind || (!d.staff && d.company != c.company) ==> SameView(db, db', kind', d)
  }

  /** After a sweeping write, a key of any other list survives only a company's write; then nothing it shows has changed. */
  lemma SurvivorsAreUnchanged(s: System, s': System, written: string, c: Caller, d: Caller, kind: string, qs: seq<string>)
    requires ShowsAtHome(s.db, s'.db, written, c) && s'.cache == Invalidated(s.cache, written, c)
    requires |qs| > 4 && qs[..4] == ["masterdata", "catalog", ScopeOf(d), kind]
    requires KeyOf(qs) in s'.cache
    ensures KeyOf(qs) in s.cache && s'.cache[KeyOf(qs)] == s.cache[KeyOf(qs)]
    ensures SameView(s.db, s'.db, kind, d)
  {
    if c.staff || c.company == "" {
      assert qs[0] == "masterdata" && qs[1] == "catalog";
      SweptKeysAreGone(s.cache, ["masterdata", "catalog"], qs);
    } else if kind == written && (d.staff || d.company == c.company) {
      SurvivorsAreElsewhere(s.cache, kind, c, d, qs);
    }
  }

  lemma EntryStaysFresh(s: System, s': System, d: Caller, kind: string, raw: string)
    requires EntryFresh(s, d, kind, raw)
    requires var k := EntryKey(d, kind, raw);
             k in s'.cache ==> k in s.cache && s'.cache[k] == s.cache[k] && SameView(s.db, s'.db, kind, d)
    ensures EntryFresh(s', d, kind, raw)
  {
  }

  lemma PageStaysFresh(s: System, s': System, d: Caller, kind: string, parent: string, p: Params, env: Env)
    requires PageFresh(s, d, kind, parent, p, env)
    requires var k := ListKey(d, kind, parent, p, env.fp);
             k in s'.cache ==> k in s.cache && s'.cache[k] == s.cache[k] && SameView(s.db, s'.db, kind, d)
    ensures PageFresh(s', d, kind, parent, p, env)
  {
  }

  /** The system after a write to this list that sweeps. */
  ghost predicate Swept(s: System, s': System, written: string, c: Caller) {
    ShowsAtHome(s.db, s'.db, written, c) && s'.cache == Invalidated(s.cache, written, c)
  }

  lemma SweptEntriesStayFresh(s: System, s': System, written: string, c: Caller, d: Caller, kind: string, raw: string)
    requires Swept(s, s', written, c) && EntryFresh(s, d, kind, raw)
    ensures EntryFresh(s', d, kind, raw)
  {
    if EntryKey(d, kind, raw) in s'.cache { SurvivorsAreUnchanged(s, s', written, c, d, kind, EntryParts(d, kind, raw)); }
    EntryStaysFresh(s, s', d, kind, raw);
  }

  lemma SweptPagesStayFresh(s: System, s': System, written: string, c: Caller, d: Caller, kind: string, parent: string, p: Params, env: Env)
    requires Swept(s, s', written, c) && PageFresh(s, d, kind, parent, p, env)
    ensures PageFresh(s', d, kind, parent, p, env)
  {
    if ListKey(d, kind, parent, p, env.fp) in s'.cache {
      SurvivorsAreUnchanged(s, s', written, c, d, kind, ListParts(d, kind, parent, p, env.fp));
    }
    PageStaysFresh(s, s', d, kind, parent, p, env);
  }

  lemma SweepingKeepsCoherence(s: System, s': System, written: string, c: Caller, env: Env, asked: iset<Params>)
    requires Coherent(s, env, asked) && Swept(s, s', written, c)
    ensures Coherent(s', env, asked)
  {
    forall d, kind, raw | CleanCaller(d) && Served(kind) && ObjectId(raw).Some? ensures EntryFresh(s', d, kind, raw) {
      SweptEntriesStayFresh(s, s', written, c, d, kind, raw);
    }
    forall d, kind, parent, p | Clear(d, parent, p, asked) && Served(kind) ensures PageFresh(s', d, kind, parent, p, env) {
      SweptPagesStayFresh(s, s', written, c, d, kind, parent, p, env);
    }
  }

  lemma WrittenShowsAtHome(db: Db, c: Caller, w: Write)
    ensures ShowsAtHome(db, Written(db, c, w).0, w.kind, c)
  {
    if !c.staff {
      forall kind, d: Caller | kind != w.kind || (!d.staff && d.company != c.company) ensures SameView(db, Written(db, c, w).0, kind, d) {
        WriteShowsOnlyAtHome(db, c, w, kind, d);
      }
    }
  }

  /** A write and its sweep leave every cached answer that remains fresh. */
  lemma ChangeKeepsCoherence(s: System, c: Caller, w: Write, env: Env, asked: iset<Params>)
    requires Coherent(s, env, asked) && !SkipsSweep(w)
    ensures Coherent(CachedWrite(s, c, w).0, env, asked)
  {
    if Written(s.db, c, w).1.Refused? {
      RefusedWriteIsNothing(s.db, c, w);
      assert CachedWrite(s, c, w).0 == s;
    } else {
      WrittenShowsAtHome(s.db, c, w);
      SweepingKeepsCoherence(s, CachedWrite(s, c, w).0, w.kind, c, env, asked);
    }
  }

  /** What a deployment keeps to: ids and queries that keys can tell apart, and no creation that skips the sweep. */
  ghost predicate Ordinary(op: Op, asked: iset<Params>) {
    match op
    case Ask(_, _, c) => CleanCaller(c)
    case Browse(_, c, parent, p) => Clear(c, parent, p, asked)
    case Change(c, w) => CleanCaller(c) && !SkipsSweep(w)
    case Evict(_) => true
    case Fleet(_) => true
  }

  lemma StepIsInvisible(s: System, op: Op, env: Env, asked: iset<Params>)
    requires Coherent(s, env, asked) && NamesFolded(s.db) && HonestCursor(env.cursor) && Telling(env.fp, asked) && Ordinary(op, asked)
    ensures var (s', a) := CachedStep(s, op, env);
            Coherent(s', env, asked) && NamesFolded(s'.db) && (s'.db, a) == PlainStep(s.db, op, env)
  {
    match op
    case Ask(kind, raw, c) => AskKeepsCoherence(s, kind, raw, c, env, asked);
    case Browse(kind, c, parent, p) => BrowseKeepsCoherence(s, kind, c, parent, p, env, asked);
    case Change(c, w) =>
      ChangeKeepsCoherence(s, c, w, env, asked);
      WriteKeepsStored(s.db, c, w);
    case Evict(keys) => ThinningKeepsCoherence(s, CachedStep(s, op, env).0, env, asked);
    case Fleet(o) =>
      RegistryFrames.StepFrame(s.db, o);
      ThinningKeepsCoherence(s, CachedStep(s, op, env).0, env, asked);
  }

  /** Losing entries, or changing anything but the lists, keeps the rest fresh. */
  lemma ThinningKeepsCoherence(s: System, s': System, env: Env, asked: iset<Params>)
    requires Coherent(s, env, asked) && s'.db.docs == s.db.docs
    requires forall k :: k in s'.cache ==> k in s.cache && s'.cache[k] == s.cache[k]
    ensures Coherent(s', env, asked)
  {
    forall c, kind ensures SameView(s.db, s'.db, kind, c) {}
    forall d, kind, raw | CleanCaller(d) && Served(kind) && ObjectId(raw).Some? ensures EntryFresh(s', d, kind, raw) {
      assert EntryFresh(s, d, kind, raw) && SameView(s.db, s'.db, kind, d);
    }
    forall d, kind, parent, p | Clear(d, parent, p, asked) && Served(kind) ensures PageFresh(s', d, kind, parent, p, env) {
      assert PageFresh(s, d, kind, parent, p, env) && SameView(s.db, s'.db, kind, d);
    }
  }

  lemma {:induction false} CoherentRunIsInvisible(s: System, ops: seq<Op>, env: Env, asked: iset<Params>)
    requires Coherent(s, env, asked) && NamesFolded(s.db) && HonestCursor(env.cursor) && Telling(env.fp, asked)
    requires forall i :: 0 <= i < |ops| ==> Ordinary(ops[i], asked)
    ensures CachedRun(s, ops, env).1 == PlainRun(s.db, ops, env).1
    ensures CachedRun(s, ops, env).0.db == PlainRun(s.db, ops, env).0
    decreases |ops|
  {
    if ops != [] {
      StepIsInvisible(s, ops[0], env, asked);
      CoherentRunIsInvisible(CachedStep(s, ops[0], env).0, ops[1..], env, asked);
    }
  }

  /**
   * The cache is invisible: from an empty cache, over any run of reads, writes, evictions and
   * register operations, every answer is the one the database alone would have given.
   */
  lemma {:induction false} CacheIsInvisible(db: Db, ops: seq<Op>, env: Env, asked: iset<Params>)
    requires NamesFolded(db) && HonestCursor(env.cursor) && Telling(env.fp, asked)
    requires forall i :: 0 <= i < |ops| ==> Ordinary(ops[i], asked)
    ensures CachedRun(System(db, map[]), ops, env).1 == PlainRun(db, ops, env).1
    ensures CachedRun(System(db, map[]), ops, env).0.db == PlainRun(db, ops, env).0
  {
    CoherentRunIsInvisible(System(db, map[]), ops, env, asked);
  }
}
