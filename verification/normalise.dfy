/** The folded forms the unique indexes are built on (internal/platform/normalise). */
module Normalise {
  import opened Wrappers
  import opened Text

  function Plate(v: string): string {
    Upper(Filter(IsAlnum, v))
  }

  /** A chassis, engine or licence number is folded like a plate. */
  function Serial(v: string): string {
    Plate(v)
  }

  function Imei(v: string): string {
    Filter(IsDigit, v)
  }

  /** What a regular expression's `\s` matches: unlike trimming, not the vertical tab. */
  predicate Gap(c: char) {
    IsSpace(c) && c as int != 11
  }

  /** `\s+` replaced by one space. */
  function Collapse(s: string): string {
    if s == "" then ""
    else if !Gap(s[0]) then [s[0]] + Collapse(s[1..])
    else if |s| > 1 && Gap(s[1]) then Collapse(s[1..])
    else " " + Collapse(s[1..])
  }

  function Name(v: string): string {
    Lower(Collapse(Trim(v)))
  }

  /** The folded value, or nothing when there is nothing left to index. */
  function Optional(fn: string -> string, v: Option<string>): Option<string> {
    if v.None? || Trim(v.value) == "" then None
    else if fn(v.value) == "" then None
    else Some(fn(v.value))
  }

  /**
   * Two spellings of one registration: separators skipped wherever they stand, letters
   * compared without case. Defined by walking both strings, without folding either.
   */
  ghost predicate SamePlate(a: string, b: string)
    decreases |a| + |b|
  {
    if a != "" && !IsAlnum(a[0]) then SamePlate(a[1..], b)
    else if b != "" && !IsAlnum(b[0]) then SamePlate(a, b[1..])
    else if a == "" || b == "" then a == b
    else LowerChar(a[0]) == LowerChar(b[0]) && SamePlate(a[1..], b[1..])
  }

  lemma UpperCons(c: char, s: string)
    ensures Upper([c] + s) == [UpperChar(c)] + Upper(s)
  {
  }

  lemma PlateStep(v: string)
    requires v != ""
    ensures Plate(v) == if IsAlnum(v[0]) then [UpperChar(v[0])] + Plate(v[1..]) else Plate(v[1..])
  {
    UpperCons(v[0], Filter(IsAlnum, v[1..]));
  }

  /** The index key identifies a registration exactly: equal keys are one plate typed twice, and no more. */
  lemma {:induction false} PlateIdentifies(a: string, b: string)
    ensures Plate(a) == Plate(b) <==> SamePlate(a, b)
    decreases |a| + |b|
  {
    if a != "" { PlateStep(a); }
    if b != "" { PlateStep(b); }
    if a != "" && !IsAlnum(a[0]) {
      PlateIdentifies(a[1..], b);
    } else if b != "" && !IsAlnum(b[0]) {
      PlateIdentifies(a, b[1..]);
    } else if a != "" && b != "" {
      PlateIdentifies(a[1..], b[1..]);
      var p, q := Plate(a), Plate(b);
      assert p[1..] == Plate(a[1..]) && q[1..] == Plate(b[1..]);
      if p == q { assert p[0] == q[0]; }
      assert UpperChar(a[0]) == UpperChar(b[0]) <==> LowerChar(a[0]) == LowerChar(b[0]);
    }
  }

  /** Folding is a closure: a stored twin folds to itself, so a value may pass through twice. */
  lemma FoldingIsIdempotent(v: string)
    ensures Plate(Plate(v)) == Plate(v)
    ensures Imei(Imei(v)) == Imei(v)
  {
    FilterKeepsOnly(IsAlnum, v);
    FilterKeepsOnly(IsDigit, v);
    FilterIdentity(IsDigit, Imei(v));
    var kept := Filter(IsAlnum, v);
    var p := Plate(v);
    forall c | c in p ensures IsAlnum(c) {
      var i :| 0 <= i < |p| && p[i] == c;
      assert kept[i] in kept;
    }
    FilterIdentity(IsAlnum, p);
    assert Upper(p) == p;
  }

  /** A digits-only value survives the trimming that comes before it is folded. */
  lemma ImeiSurvivesTrim(v: string)
    ensures Trim(Imei(v)) == Imei(v)
  {
    FilterKeepsOnly(IsDigit, v);
    var d := Imei(v);
    if d != "" { assert d[0] in d && d[|d| - 1] in d; }
  }

  /** Inputs are trimmed before they are stored; the twins are those of what was typed. */
  lemma TwinsIgnoreTrim(v: string)
    ensures Plate(Trim(v)) == Plate(v) && Imei(Trim(v)) == Imei(v) && SamePlate(Trim(v), v)
  {
    FilterIgnoresTrim(IsAlnum, v);
    FilterIgnoresTrim(IsDigit, v);
    PlateIdentifies(Trim(v), v);
  }

  // ----- Names -----

  /** What is left once a run of gaps has been walked over. */
  function SkipGap(s: string): (r: string)
    ensures |r| <= |s| && (s != "" && Gap(s[0]) ==> |r| < |s|) && (r != "" ==> !Gap(r[0]))
  {
    if s != "" && Gap(s[0]) then SkipGap(s[1..]) else s
  }

  /** Two spellings of one name: letters compared without case, a run of gaps for one gap. Defined by walking both. */
  ghost predicate Alike(a: string, b: string)
    decreases |a| + |b|
  {
    if a == "" || b == "" then a == b
    else if Gap(a[0]) || Gap(b[0]) then Gap(a[0]) && Gap(b[0]) && Alike(SkipGap(a), SkipGap(b))
    else LowerChar(a[0]) == LowerChar(b[0]) && Alike(a[1..], b[1..])
  }

  /** Outer space aside. */
  ghost predicate SameName(a: string, b: string) {
    Alike(Trim(a), Trim(b))
  }

  lemma LowerCons(c: char, s: string)
    ensures Lower([c] + s) == [LowerChar(c)] + Lower(s)
  {
  }

  lemma {:induction false} CollapseGap(s: string)
    requires s != "" && Gap(s[0])
    ensures Collapse(s) == " " + Collapse(SkipGap(s))
  {
    if |s| > 1 && Gap(s[1]) { CollapseGap(s[1..]); }
  }

  /** One step of the folded text. */
  lemma FoldStep(s: string)
    requires s != ""
    ensures Lower(Collapse(s)) ==
            if Gap(s[0]) then " " + Lower(Collapse(SkipGap(s))) else [LowerChar(s[0])] + Lower(Collapse(s[1..]))
    ensures !Gap(s[0]) ==> LowerChar(s[0]) != ' '
  {
    if Gap(s[0]) {
      CollapseGap(s);
      LowerCons(' ', Collapse(SkipGap(s)));
    } else {
      LowerCons(s[0], Collapse(s[1..]));
    }
  }

  lemma {:induction false} FoldedAlike(a: string, b: string)
    ensures Lower(Collapse(a)) == Lower(Collapse(b)) <==> Alike(a, b)
    decreases |a| + |b|
  {
    if a != "" { FoldStep(a); }
    if b != "" { FoldStep(b); }
    if a != "" && b != "" {
      var x, y := Lower(Collapse(a)), Lower(Collapse(b));
      if Gap(a[0]) && Gap(b[0]) {
        FoldedAlike(SkipGap(a), SkipGap(b));
        assert x[1..] == Lower(Collapse(SkipGap(a))) && y[1..] == Lower(Collapse(SkipGap(b)));
      } else if !Gap(a[0]) && !Gap(b[0]) {
        FoldedAlike(a[1..], b[1..]);
        assert x[1..] == Lower(Collapse(a[1..])) && y[1..] == Lower(Collapse(b[1..]));
      }
      assert x == y ==> x[0] == y[0];
    }
  }

  /** The index key identifies a name exactly: equal keys are one name typed twice, and no more. */
  lemma NameIdentifies(a: string, b: string)
    ensures Name(a) == Name(b) <==> SameName(a, b)
  {
    FoldedAlike(Trim(a), Trim(b));
  }

  lemma FoldStart(s: string)
    requires s != "" && !Gap(s[0])
    ensures Lower(Collapse(s)) != "" && !Gap(Lower(Collapse(s))[0])
  {
    FoldStep(s);
  }

  lemma {:induction false} FoldEnd(s: string)
    requires s != "" && !IsSpace(s[|s| - 1])
    ensures var x := Lower(Collapse(s)); x != "" && !IsSpace(x[|x| - 1])
    decreases |s|
  {
    FoldStep(s);
    if Gap(s[0]) {
      SkipKeepsEnd(s);
      FoldEnd(SkipGap(s));
    } else if |s| > 1 {
      FoldEnd(s[1..]);
    } else {
      assert Collapse(s[1..]) == "";
    }
  }

  lemma {:induction false} SkipKeepsEnd(s: string)
    requires s != "" && !Gap(s[|s| - 1])
    ensures SkipGap(s) != "" && SkipGap(s)[|SkipGap(s)| - 1] == s[|s| - 1]
  {
    if Gap(s[0]) { SkipKeepsEnd(s[1..]); }
  }

  /** Folding a text leaves it alike. */
  lemma {:induction false} FoldStaysAlike(s: string)
    ensures Alike(Lower(Collapse(s)), s)
    decreases |s|
  {
    if s != "" {
      FoldStep(s);
      var x := Lower(Collapse(s));
      if Gap(s[0]) {
        var rest := SkipGap(s);
        FoldStaysAlike(rest);
        if rest != "" { FoldStart(rest); }
        assert x[1..] == Lower(Collapse(rest)) && SkipGap(x) == SkipGap(x[1..]) == x[1..];
      } else {
        FoldStaysAlike(s[1..]);
        assert x[1..] == Lower(Collapse(s[1..]));
      }
    }
  }

  /** A folded name has nothing left to trim, and folds to itself. */
  lemma NameIsIdempotent(v: string)
    ensures Trim(Name(v)) == Name(v) && Name(Name(v)) == Name(v)
  {
    var s := Trim(v);
    TrimLeavesNone(v);
    if s != "" {
      FoldStep(s);
      FoldEnd(s);
      assert !IsSpace(Name(v)[0]);
    } else {
      assert Name(v) == "";
    }
    assert TrimLeft(Name(v)) == Name(v);
    FoldStaysAlike(s);
    FoldedAlike(Name(v), s);
  }

  /** The name begins with the search: letters compared without case, one space for a run of gaps. Defined by walking both. */
  ghost predicate Begins(search: string, name: string)
    decreases |search|
  {
    || search == ""
    || (&& name != ""
        && if Gap(name[0]) then search[0] == ' ' && Begins(search[1..], SkipGap(name))
           else LowerChar(search[0]) == LowerChar(name[0]) && Begins(search[1..], name[1..]))
  }

  lemma {:induction false} FoldedBegins(search: string, name: string)
    ensures Lower(search) <= Lower(Collapse(name)) <==> Begins(search, name)
    decreases |search|
  {
    if search != "" && name != "" {
      FoldStep(name);
      LowerCons(search[0], search[1..]);
      assert search == [search[0]] + search[1..];
      var x, y := Lower(search), Lower(Collapse(name));
      var rest := if Gap(name[0]) then SkipGap(name) else name[1..];
      FoldedBegins(search[1..], rest);
      assert x[1..] == Lower(search[1..]) && y[1..] == Lower(Collapse(rest));
      assert x <= y <==> x[0] == y[0] && x[1..] <= y[1..];
    }
  }
}
