/** What the cache saves: an answer is given again without the database until a write could have changed it. */
module CatalogMemory {
  import opened Wrappers
  import opened Text
  import opened Keys
  import opened Records
  import opened Catalog
  import opened CatalogCache

  /** Which answers a write makes stale: every one where it is staff's, else those of its list that its company or staff asked for. */
  predicate Stale(kind: string, c: Caller, d: Caller, kind': string) {
    c.staff || c.company == "" || (kind' == kind && (d.staff || d.company == c.company))
  }

  lemma BelowExactly(scope: string, kind: string, d: Caller, kind': string, qs: seq<string>)
    requires Free(scope, ':') && Served(kind) && Served(kind') && CleanCaller(d)
    requires |qs| > 4 && qs[..4] == ["masterdata", "catalog", ScopeOf(d), kind']
    ensures PrefixOf(["masterdata", "catalog", scope, kind]) <= KeyOf(qs) <==> scope == ScopeOf(d) && kind == kind'
  {
    var ps := ["masterdata", "catalog", scope, kind];
    SweepIsExact(ps, qs);
    ScopesAreClean(d);
    KindsAreClean(kind);
    KindsAreClean(kind');
    CleanIdentity(scope);
    CleanIdentity(kind);
    CleanIdentity(kind');
    var x, y := CleanAll(ps), CleanAll(qs);
    assert qs[0] == ps[0] && qs[1] == ps[1] && qs[2] == ScopeOf(d) && qs[3] == kind';
    assert x[2] == scope && x[3] == kind && y[2] == ScopeOf(d) && y[3] == kind';
    if scope == ScopeOf(d) && kind == kind' { assert x == y[..4]; }
  }

  /** A write forgets exactly the stale answers. */
  lemma ForgetsExactly(cache: Cache, kind: string, c: Caller, d: Caller, kind': string, qs: seq<string>)
    requires CleanCaller(c) && CleanCaller(d) && Served(kind) && Served(kind')
    requires |qs| > 4 && qs[..4] == ["masterdata", "catalog", ScopeOf(d), kind']
    ensures KeyOf(qs) in Invalidated(cache, kind, c) <==> KeyOf(qs) in cache && !Stale(kind, c, d, kind')
    ensures KeyOf(qs) in Invalidated(cache, kind, c) ==> Invalidated(cache, kind, c)[KeyOf(qs)] == cache[KeyOf(qs)]
  {
    assert qs[0] == "masterdata" && qs[1] == "catalog";
    if c.staff || c.company == "" {
      SweptKeysAreGone(cache, ["masterdata", "catalog"], qs);
    } else {
      BelowExactly(c.company, kind, d, kind', qs);
      BelowExactly("staff", kind, d, kind', qs);
    }
  }

  /** A write keeps every answer it does not make stale, and when it is accepted no other. */
  lemma WriteForgetsExactly(s: System, c: Caller, w: Write, d: Caller, kind: string, qs: seq<string>)
    requires CleanCaller(c) && CleanCaller(d) && Served(w.kind) && Served(kind)
    requires |qs| > 4 && qs[..4] == ["masterdata", "catalog", ScopeOf(d), kind] && KeyOf(qs) in s.cache
    ensures var (s', r) := CachedWrite(s, c, w);
      && (KeyOf(qs) in s'.cache <==> r.Refused? || SkipsSweep(w) || !Stale(w.kind, c, d, kind))
      && (KeyOf(qs) in s'.cache ==> s'.cache[KeyOf(qs)] == s.cache[KeyOf(qs)])
  {
    ForgetsExactly(s.cache, w.kind, c, d, kind, qs);
  }

  lemma CachedEntryAnswers(s: System, kind: string, raw: string, c: Caller, e: Entry)
    requires Served(kind) && ObjectId(raw).Some? && EntryKey(c, kind, raw) in s.cache && s.cache[EntryKey(c, kind, raw)] == CachedEntry(e)
    ensures CachedGet(s, kind, raw, c) == (s, Ok(e))
  {
  }

  lemma CachedPageAnswers(s: System, kind: string, c: Caller, parent: string, p: Params, env: Env, page: Page)
    requires var key := ListKey(c, kind, parent, p, env.fp); Served(kind) && key in s.cache && s.cache[key] == CachedPage(page)
    ensures CachedList(s, kind, c, parent, p, env) == (s, Ok(page))
  {
  }

  /** What was answered is answered so still, without asking the database, after a write of another list or by another company. */
  lemma OthersAnswersAreKept(s: System, c: Caller, w: Write, kind: string, raw: string, d: Caller)
    requires CleanCaller(c) && CleanCaller(d) && Served(w.kind) && CachedGet(s, kind, raw, d).1.Ok?
    ensures var (s', r) := CachedGet(s, kind, raw, d);
            var (after, written) := CachedWrite(s', c, w);
            if written.Refused? || SkipsSweep(w) || !Stale(w.kind, c, d, kind) then CachedGet(after, kind, raw, d) == (after, r)
            else EntryKey(d, kind, raw) !in after.cache
  {
    var (s', r) := CachedGet(s, kind, raw, d);
    var after := CachedWrite(s', c, w).0;
    WriteForgetsExactly(s', c, w, d, kind, EntryParts(d, kind, raw));
    if EntryKey(d, kind, raw) in after.cache { CachedEntryAnswers(after, kind, raw, d, r.value); }
  }

  /** The same of listings. */
  lemma OthersListingsAreKept(s: System, c: Caller, w: Write, kind: string, d: Caller, parent: string, p: Params, env: Env)
    requires CleanCaller(c) && CleanCaller(d) && Served(w.kind) && CachedList(s, kind, d, parent, p, env).1.Ok?
    ensures var (s', r) := CachedList(s, kind, d, parent, p, env);
            var (after, written) := CachedWrite(s', c, w);
            if written.Refused? || SkipsSweep(w) || !Stale(w.kind, c, d, kind) then CachedList(after, kind, d, parent, p, env) == (after, r)
            else ListKey(d, kind, parent, p, env.fp) !in after.cache
  {
    var (s', r) := CachedList(s, kind, d, parent, p, env);
    var after := CachedWrite(s', c, w).0;
    WriteForgetsExactly(s', c, w, d, kind, ListParts(d, kind, parent, p, env.fp));
    if ListKey(d, kind, parent, p, env.fp) in after.cache { CachedPageAnswers(after, kind, d, parent, p, env, r.value); }
  }

  // ----- Pages -----

  /** All that a query finds, in its order. */
  type Order = (seq<Sort>, map<string, Doc>) -> seq<string>

  function Least(a: int, b: int): int {
    if a < b then a else b
  }

  function Slice(all: seq<string>, offset: nat, size: nat): seq<string> {
    all[Least(offset, |all|)..Least(offset + size, |all|)]
  }

  /** The database skips and limits what it has ordered. */
  ghost predicate Slices(cursor: Cursor, order: Order) {
    forall sorts, offset, limit, found :: offset >= 0 && limit > 0 ==>
      cursor(sorts, offset, limit, found) == Slice(order(sorts, found), offset, limit)
  }

  /** The ids of a page. */
  ghost function Listed(page: Page): seq<string> {
    seq(|page.entries|, i requires 0 <= i < |page.entries| => page.entries[i].id)
  }

  lemma PageLists(view: map<string, Doc>, kind: string, parent: string, p: Params, cursor: Cursor)
    ensures Listed(PageOf(view, kind, parent, p, cursor)) == cursor(p.sorts, Offset(p), p.pageSize, Matches(view, kind, parent, p.search))
  {
  }

  lemma OffsetIs(p: Params)
    requires p.page >= 0 && p.pageSize > 0
    ensures Offset(p) == p.page * p.pageSize >= 0
  {
  }

  lemma SliceHolds(all: seq<string>, offset: nat, size: nat, k: nat)
    requires k < |all| && forall i, j :: 0 <= i < j < |all| ==> all[i] != all[j]
    ensures var slice := Slice(all, offset, size);
            && |slice| <= size && (all[k] in slice <==> offset <= k < offset + size)
            && (offset <= k < offset + size ==> slice[k - offset] == all[k])
  {
  }

  lemma PlaceExactly(k: nat, page: nat, size: nat)
    requires size > 0
    ensures k / size == page <==> page * size <= k < page * size + size
    ensures k / size == page ==> k % size == k - page * size
  {
    assert k == k / size * size + k % size;
    if k / size < page { assert (k / size + 1) * size <= page * size; }
    if k / size > page { assert (page + 1) * size <= k / size * size; }
  }

  /** Place k of the order is on page k / size, and no other. */
  ghost predicate OnItsPage(all: seq<string>, ids: seq<string>, page: nat, size: nat, k: nat)
    requires size > 0 && k < |all|
  {
    |ids| <= size && (all[k] in ids <==> k / size == page) && (k / size == page ==> k % size < |ids| && ids[k % size] == all[k])
  }

  lemma SlicePlaces(all: seq<string>, page: nat, size: nat, offset: nat, k: nat)
    requires size > 0 && offset == page * size && k < |all| && forall i, j :: 0 <= i < j < |all| ==> all[i] != all[j]
    ensures OnItsPage(all, Slice(all, offset, size), page, size, k)
  {
    PlaceExactly(k, page, size);
    SliceHolds(all, offset, size, k);
  }

  /** Every entry found stands on one page: the one its place in the order falls on, counted from nought. */
  lemma EachOnItsPage(db: Db, kind: string, c: Caller, parent: string, p: Params, cursor: Cursor, order: Order, k: nat)
    requires Served(kind) && (parent != "" ==> ParentField(kind) != "") && Slices(cursor, order) && p.page >= 0 && p.pageSize > 0
    requires var all := order(p.sorts, Matches(View(db, kind, c), kind, parent, p.search));
             k < |all| && forall i, j :: 0 <= i < j < |all| ==> all[i] != all[j]
    ensures var all := order(p.sorts, Matches(View(db, kind, c), kind, parent, p.search));
            OnItsPage(all, Listed(List(db, kind, c, parent, p, cursor).value), p.page, p.pageSize, k)
  {
    PageLists(View(db, kind, c), kind, parent, p, cursor);
    OffsetIs(p);
    SlicePlaces(order(p.sorts, Matches(View(db, kind, c), kind, parent, p.search)), p.page, p.pageSize, Offset(p), k);
  }
}
