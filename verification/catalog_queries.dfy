/** When the text a listing is cached by tells its query apart. */
module CatalogQueries {
  import opened Text
  import opened Catalog
  import opened CatalogCache

  /** A query whose text can be taken apart again. */
  predicate CleanParams(p: Params) {
    && Free(p.search, '|')
    && (forall i :: 0 <= i < |p.filters| ==> Free(ClauseText(p.filters[i]), '|'))
    && (forall i :: 0 <= i < |p.sorts| ==> Free(p.sorts[i].field, '|') && Free(p.sorts[i].field, ':'))
  }

  lemma SortTextInjective(a: Sort, b: Sort)
    requires Free(a.field, ':') && Free(b.field, ':') && SortText(a) == SortText(b)
    ensures a == b
  {
    var x, y := if a.desc then "true" else "false", if b.desc then "true" else "false";
    assert a.field + [':'] + x == SortText(a)[2..] && b.field + [':'] + y == SortText(b)[2..];
    HeadsAgree(a.field, b.field, x, y, ':');
    HeadsAgree(b.field, a.field, y, x, ':');
    assert x[0] == y[0];
  }

  /** A clause whose field and operator have no colon; its value may. */
  predicate PlainClause(c: Clause) {
    Free(c.field, ':') && Free(c.operator, ':')
  }

  lemma ClauseTextInjective(a: Clause, b: Clause)
    requires PlainClause(a) && PlainClause(b) && ClauseText(a) == ClauseText(b)
    ensures a == b
  {
    var x, y := a.operator + [':'] + a.value, b.operator + [':'] + b.value;
    assert a.field + [':'] + x == ClauseText(a)[2..] && b.field + [':'] + y == ClauseText(b)[2..];
    HeadsAgree(a.field, b.field, x, y, ':');
    HeadsAgree(b.field, a.field, y, x, ':');
    assert x == (a.field + [':'] + x)[|a.field| + 1..] && y == (b.field + [':'] + y)[|b.field| + 1..];
    HeadsAgree(a.operator, b.operator, a.value, b.value, ':');
    HeadsAgree(b.operator, a.operator, b.value, a.value, ':');
    assert a.value == x[|a.operator| + 1..] && b.value == y[|b.operator| + 1..];
  }

  lemma SegmentsAreFree(p: Params)
    requires CleanParams(p)
    ensures AllFree([p.search] + Segments(p), '|')
  {
    var parts := [p.search] + Segments(p);
    forall i | 0 <= i < |parts| ensures Free(parts[i], '|') {
      if 0 < i <= |p.filters| {
        assert parts[i] == ClauseText(p.filters[i - 1]);
      } else if i > |p.filters| {
        assert parts[i] == SortText(p.sorts[i - 1 - |p.filters|]);
      }
    }
  }

  lemma SegmentKinds(p: Params)
    ensures |Segments(p)| == |p.filters| + |p.sorts|
    ensures forall i :: 0 <= i < |Segments(p)| ==> |Segments(p)[i]| > 0
    ensures forall i :: 0 <= i < |Segments(p)| ==> (Segments(p)[i][0] == 'f' <==> i < |p.filters|)
  {
    var a := Segments(p);
    forall i | 0 <= i < |a| ensures |a[i]| > 0 && (a[i][0] == 'f' <==> i < |p.filters|) {
      if i < |p.filters| {
        assert a[i] == ClauseText(p.filters[i]);
      } else {
        assert a[i] == SortText(p.sorts[i - |p.filters|]);
      }
    }
  }

  /** Clean queries of one text ask for one listing, the same search in the same order, and by the same clauses where these are plain. */
  lemma CleanTextDecides(p: Params, q: Params)
    requires CleanParams(p) && CleanParams(q) && QueryText(p) == QueryText(q)
    ensures p.search == q.search && p.sorts == q.sorts
    ensures (forall c :: c in p.filters || c in q.filters ==> PlainClause(c)) ==> p.filters == q.filters
  {
    SegmentsAreFree(p);
    SegmentsAreFree(q);
    JoinInjective([p.search] + Segments(p), [q.search] + Segments(q), '|');
    var a, b := Segments(p), Segments(q);
    assert a == ([p.search] + a)[1..] && b == ([q.search] + b)[1..];
    SegmentKinds(p);
    SegmentKinds(q);
    assert |p.filters| < |a| ==> a[|p.filters|][0] != 'f';
    assert |q.filters| < |b| ==> b[|q.filters|][0] != 'f';
    assert |p.filters| == |q.filters|;
    forall i | 0 <= i < |p.sorts| ensures p.sorts[i] == q.sorts[i] {
      assert a[|p.filters| + i] == b[|q.filters| + i];
      SortTextInjective(p.sorts[i], q.sorts[i]);
    }
    if forall c :: c in p.filters || c in q.filters ==> PlainClause(c) {
      forall i | 0 <= i < |p.filters| ensures p.filters[i] == q.filters[i] {
        assert a[i] == b[i];
        ClauseTextInjective(p.filters[i], q.filters[i]);
      }
    }
  }

  /** Fingerprints that do not collide tell clean queries apart, however many are asked. */
  lemma CleanQueriesTell(fp: Fingerprint, asked: iset<Params>)
    requires Colonless(fp) && forall p :: p in asked ==> CleanParams(p)
    requires forall p, q :: p in asked && q in asked && fp(QueryText(p)) == fp(QueryText(q)) ==> QueryText(p) == QueryText(q)
    ensures Telling(fp, asked)
  {
    forall p, q | p in asked && q in asked && fp(QueryText(p)) == fp(QueryText(q)) ensures SameListing(p, q) {
      CleanTextDecides(p, q);
    }
  }

  // ----- Exactly which queries no other is mistaken for -----

  /** The text of some clause or sort. */
  ghost predicate IsSegment(s: string) {
    (exists c: Clause :: ClauseText(c) == s) || (exists t: Sort :: SortText(t) == s)
  }

  /** Some bar in the search is followed by the text of a clause or a sort. */
  ghost predicate HidesSegment(search: string) {
    exists i :: 0 <= i < |search| && search[i] == '|' && IsSegment(search[i + 1..])
  }

  /** No query of another search or other sorts has this query's text. */
  ghost predicate Unmistakable(p: Params) {
    forall q :: QueryText(q) == QueryText(p) ==> q.search == p.search && q.sorts == p.sorts
  }

  lemma PlainText(p: Params)
    requires p.filters == [] && p.sorts == []
    ensures QueryText(p) == p.search
  {
    assert Segments(p) == [];
    assert [p.search] + Segments(p) == [p.search];
  }

  /** With clauses or sorts, the text is the search, then a bar, and ends in the last of them. */
  lemma LastSegmentShows(p: Params) returns (i: nat)
    requires p.filters != [] || p.sorts != []
    ensures |p.search| <= i < |QueryText(p)| && QueryText(p)[i] == '|' && IsSegment(QueryText(p)[i + 1..])
  {
    var n := |Segments(p)| - 1;
    TextStep(p, n);
    assert Segments(p)[..n + 1] == Segments(p);
    TextStartsWithSearch(p, n);
    i := |TextUpTo(p, n)|;
    assert QueryText(p)[i + 1..] == Segments(p)[n];
    if p.sorts != [] {
      assert Segments(p)[n] == SortText(p.sorts[|p.sorts| - 1]);
    } else {
      assert Segments(p)[n] == ClauseText(p.filters[|p.filters| - 1]);
    }
  }

  lemma {:induction false} TextStartsWithSearch(p: Params, n: nat)
    requires n <= |Segments(p)|
    ensures |p.search| <= |TextUpTo(p, n)|
  {
    if n > 0 {
      TextStartsWithSearch(p, n - 1);
      TextStep(p, n - 1);
    } else {
      assert [p.search] + Segments(p)[..0] == [p.search];
    }
  }

  /** A search that hides a segment has the text of the shorter search with that segment. */
  lemma HiddenSegmentMistakes(p: Params, i: nat)
    requires p.filters == [] && p.sorts == [] && i < |p.search| && p.search[i] == '|' && IsSegment(p.search[i + 1..])
    ensures !Unmistakable(p)
  {
    PlainText(p);
    var head, tail := p.search[..i], p.search[i + 1..];
    assert p.search == head + ['|'] + tail;
    JoinAppend([head], tail, '|');
    var q: Params;
    if c: Clause :| ClauseText(c) == tail {
      q := Params(p.page, p.pageSize, [c], [], head);
    } else {
      var t: Sort :| SortText(t) == tail;
      q := Params(p.page, p.pageSize, [], [t], head);
    }
    assert Segments(q) == [tail] && [head] + Segments(q) == [head] + [tail];
    assert QueryText(q) == QueryText(p) && q.search != p.search;
  }

  /**
   * No other query has a query's text if and only if it is a bare search in which no bar is
   * followed by a clause or a sort: any query with a sort reads like a search.
   */
  lemma TextTellsExactly(p: Params)
    ensures Unmistakable(p) <==> p.filters == [] && p.sorts == [] && !HidesSegment(p.search)
  {
    if p.filters != [] || p.sorts != [] {
      var q := Params(p.page, p.pageSize, [], [], QueryText(p));
      PlainText(q);
      var i := LastSegmentShows(p);
      assert QueryText(q) == QueryText(p) && |q.search| > |p.search|;
    } else if HidesSegment(p.search) {
      var i :| 0 <= i < |p.search| && p.search[i] == '|' && IsSegment(p.search[i + 1..]);
      HiddenSegmentMistakes(p, i);
    } else {
      PlainText(p);
      forall q | QueryText(q) == QueryText(p) ensures q.search == p.search && q.sorts == p.sorts {
        if q.filters != [] || q.sorts != [] { var i := LastSegmentShows(q); } else { PlainText(q); }
      }
    }
  }
}
