/** Optional values, and what a service call answers. */
module Wrappers {
  datatype Option<+T> = None | Some(value: T)

  /** The refusals the services distinguish. */
  datatype Error = NotFound | Validation | Conflict | Forbidden | UnknownKind | StoreFailed

  datatype Reply<+T> = Ok(value: T) | Refused(error: Error)
}

/** The string operations the services are built on, over ASCII. */
module Text {
  import opened Wrappers

  /** What `strings.TrimSpace` removes: tab, newline, vertical tab, form feed, return, space. */
  predicate IsSpace(c: char) {
    c == ' ' || 9 <= c as int <= 13
  }

  predicate IsDigit(c: char) {
    '0' <= c <= '9'
  }

  predicate IsAlnum(c: char) {
    IsDigit(c) || 'A' <= c <= 'Z' || 'a' <= c <= 'z'
  }

  predicate IsHex(c: char) {
    IsDigit(c) || 'A' <= c <= 'F' || 'a' <= c <= 'f'
  }

  function UpperChar(c: char): char {
    if 'a' <= c <= 'z' then (c as int - 32) as char else c
  }

  function LowerChar(c: char): char {
    if 'A' <= c <= 'Z' then (c as int + 32) as char else c
  }

  function Upper(s: string): string {
    seq(|s|, i requires 0 <= i < |s| => UpperChar(s[i]))
  }

  function Lower(s: string): string {
    seq(|s|, i requires 0 <= i < |s| => LowerChar(s[i]))
  }

  function TrimLeft(s: string): string {
    if s != "" && IsSpace(s[0]) then TrimLeft(s[1..]) else s
  }

  function TrimRight(s: string): string {
    if s != "" && IsSpace(s[|s| - 1]) then TrimRight(s[..|s| - 1]) else s
  }

  function Trim(s: string): string {
    TrimRight(TrimLeft(s))
  }

  /** The characters of s that satisfy p, in order. */
  function Filter(p: char -> bool, s: string): string {
    if s == "" then ""
    else if p(s[0]) then [s[0]] + Filter(p, s[1..])
    else Filter(p, s[1..])
  }

  lemma {:induction false} FilterKeepsOnly(p: char -> bool, s: string)
    ensures forall c :: c in Filter(p, s) ==> p(c)
  {
    if s != "" { FilterKeepsOnly(p, s[1..]); }
  }

  lemma {:induction false} FilterIdentity(p: char -> bool, s: string)
    requires forall c :: c in s ==> p(c)
    ensures Filter(p, s) == s
  {
    if s != "" {
      assert s[0] in s;
      assert forall c :: c in s[1..] ==> c in s;
      FilterIdentity(p, s[1..]);
    }
  }

  lemma {:induction false} TrimRightKeepsHead(s: string)
    ensures TrimRight(s) <= s
    ensures s != "" && !IsSpace(s[0]) ==> TrimRight(s) != ""
  {
    if s != "" && IsSpace(s[|s| - 1]) { TrimRightKeepsHead(s[..|s| - 1]); }
  }

  lemma {:induction false} TrimRightStops(s: string)
    ensures TrimRight(s) == "" || !IsSpace(TrimRight(s)[|TrimRight(s)| - 1])
  {
    if s != "" && IsSpace(s[|s| - 1]) { TrimRightStops(s[..|s| - 1]); }
  }

  lemma {:induction false} TrimLeftStops(s: string)
    ensures TrimLeft(s) == "" || !IsSpace(TrimLeft(s)[0])
  {
    if s != "" && IsSpace(s[0]) { TrimLeftStops(s[1..]); }
  }

  /** Trimming twice is trimming once. */
  lemma TrimIdempotent(s: string)
    ensures Trim(Trim(s)) == Trim(s)
  {
    TrimLeftStops(s);
    TrimRightKeepsHead(TrimLeft(s));
    TrimRightStops(TrimLeft(s));
  }

  lemma {:induction false} FilterAppend(p: char -> bool, s: string, c: char)
    ensures Filter(p, s + [c]) == Filter(p, s) + (if p(c) then [c] else "")
  {
    if s != "" {
      assert (s + [c])[1..] == s[1..] + [c];
      FilterAppend(p, s[1..], c);
    }
  }

  lemma {:induction false} FilterIgnoresLeft(p: char -> bool, s: string)
    requires forall c :: IsSpace(c) ==> !p(c)
    ensures Filter(p, TrimLeft(s)) == Filter(p, s)
  {
    if s != "" && IsSpace(s[0]) { FilterIgnoresLeft(p, s[1..]); }
  }

  lemma {:induction false} FilterIgnoresRight(p: char -> bool, s: string)
    requires forall c :: IsSpace(c) ==> !p(c)
    ensures Filter(p, TrimRight(s)) == Filter(p, s)
  {
    if s != "" && IsSpace(s[|s| - 1]) {
      FilterAppend(p, s[..|s| - 1], s[|s| - 1]);
      assert s == s[..|s| - 1] + [s[|s| - 1]];
      FilterIgnoresRight(p, s[..|s| - 1]);
    }
  }

  /** A fold that drops spaces does not notice the trimming before it. */
  lemma FilterIgnoresTrim(p: char -> bool, s: string)
    requires forall c :: IsSpace(c) ==> !p(c)
    ensures Filter(p, Trim(s)) == Filter(p, s)
  {
    FilterIgnoresLeft(p, s);
    FilterIgnoresRight(p, TrimLeft(s));
  }

  /** Nothing but space from i to j. */
  predicate Spaces(s: string, i: nat, j: nat)
    requires i <= j <= |s|
  {
    forall k :: i <= k < j ==> IsSpace(s[k])
  }

  lemma {:induction false} TrimLeftExactly(s: string) returns (i: nat)
    ensures i <= |s| && Spaces(s, 0, i) && TrimLeft(s) == s[i..]
  {
    i := 0;
    if s != "" && IsSpace(s[0]) {
      var n := TrimLeftExactly(s[1..]);
      i := n + 1;
      assert s[1..][n..] == s[i..] && forall k :: 1 <= k < i ==> s[k] == s[1..][k - 1];
    }
  }

  lemma {:induction false} TrimRightExactly(s: string) returns (j: nat)
    ensures j <= |s| && Spaces(s, j, |s|) && TrimRight(s) == s[..j]
  {
    j := |s|;
    if s != "" && IsSpace(s[|s| - 1]) {
      var head := s[..|s| - 1];
      j := TrimRightExactly(head);
      assert s[..j] == head[..j] && forall k :: j <= k < |head| ==> s[k] == head[k];
    }
  }

  /** Trimming takes off spaces at both ends and nothing else. */
  lemma TrimTakesSpaces(s: string)
    ensures exists i, j :: 0 <= i <= j <= |s| && Spaces(s, 0, i) && Trim(s) == s[i..j] && Spaces(s, j, |s|)
  {
    var i := TrimLeftExactly(s);
    var n := TrimRightExactly(s[i..]);
    var j := i + n;
    assert s[i..][..n] == s[i..j] && forall k :: j <= k < |s| ==> s[k] == s[i..][k - i];
  }

  /** And all of them. */
  lemma TrimLeavesNone(s: string)
    ensures Trim(s) != "" ==> !IsSpace(Trim(s)[0]) && !IsSpace(Trim(s)[|Trim(s)| - 1])
  {
    TrimLeftStops(s);
    TrimRightKeepsHead(TrimLeft(s));
    TrimRightStops(TrimLeft(s));
  }

  // ----- Document ids -----

  predicate HexDigits(s: string) {
    |s| == 24 && forall i :: 0 <= i < |s| ==> IsHex(s[i])
  }

  /** `ObjectIDFromHex` followed by `Hex`: 24 hexadecimal digits of either case, printed in lower case. */
  function ObjectId(s: string): Option<string> {
    if HexDigits(s) then Some(Lower(s)) else None
  }

  /** The registry's `oid`, which trims first. */
  function Oid(raw: string): Option<string> {
    ObjectId(Trim(raw))
  }

  /** An id spelled the way the database prints it. */
  predicate Canonical(raw: string) {
    Oid(raw) == Some(raw)
  }

  lemma {:induction false} HexHasNoSpace(s: string)
    requires forall i :: 0 <= i < |s| ==> IsHex(s[i])
    ensures Trim(s) == s
  {
  }

  /** Printing is canonical: whatever spelling was read, the printed id reads back as itself. */
  lemma OidIsCanonical(raw: string)
    ensures Oid(raw).Some? ==> Canonical(Oid(raw).value)
  {
    if Oid(raw).Some? {
      var id := Oid(raw).value;
      assert HexDigits(Trim(raw)) && id == Lower(Trim(raw));
      assert HexDigits(id);
      HexHasNoSpace(id);
      assert Lower(id) == id;
    }
  }

  /** What stands between outer spaces is what trimming leaves. */
  lemma TrimIs(s: string, i: nat, j: nat)
    requires i < j <= |s| && Spaces(s, 0, i) && Spaces(s, j, |s|) && !IsSpace(s[i]) && !IsSpace(s[j - 1])
    ensures Trim(s) == s[i..j]
  {
    TrimTakesSpaces(s);
    TrimLeavesNone(s);
    var k, l :| 0 <= k <= l <= |s| && Spaces(s, 0, k) && Trim(s) == s[k..l] && Spaces(s, l, |s|);
    assert k <= i && j <= l;
    assert Trim(s)[0] == s[k] && Trim(s)[|Trim(s)| - 1] == s[l - 1];
  }

  lemma BlankExactly(s: string)
    ensures Trim(s) == "" <==> forall c :: c in s ==> IsSpace(c)
  {
    TrimTakesSpaces(s);
    TrimLeavesNone(s);
    var i, j :| 0 <= i <= j <= |s| && Spaces(s, 0, i) && Trim(s) == s[i..j] && Spaces(s, j, |s|);
    if i < j {
      assert Trim(s)[0] == s[i];
      assert s[i] in s;
    }
  }

  /** The id spelled out: 24 hexadecimal digits, in either case. */
  predicate Spells(digits: string, id: string) {
    |digits| == |id| == 24 && forall k :: 0 <= k < 24 ==> IsHex(digits[k]) && id[k] == LowerChar(digits[k])
  }

  /** An id is read where it is spelled out between outer spaces, and printed in lower case. */
  lemma OidReadsExactly(raw: string, id: string)
    ensures Oid(raw) == Some(id) <==>
            exists i, j :: 0 <= i <= j <= |raw| && Spaces(raw, 0, i) && Spells(raw[i..j], id) && Spaces(raw, j, |raw|)
  {
    if Oid(raw) == Some(id) {
      TrimTakesSpaces(raw);
      var i, j :| 0 <= i <= j <= |raw| && Spaces(raw, 0, i) && Trim(raw) == raw[i..j] && Spaces(raw, j, |raw|);
      assert Spells(raw[i..j], id);
    }
    if i, j :| 0 <= i <= j <= |raw| && Spaces(raw, 0, i) && Spells(raw[i..j], id) && Spaces(raw, j, |raw|) {
      var digits := raw[i..j];
      assert raw[i] == digits[0] && raw[j - 1] == digits[23];
      TrimIs(raw, i, j);
      assert Lower(digits) == id;
    }
  }

  // ----- Joining parts with a separator -----

  function Join(parts: seq<string>, sep: char): string {
    if |parts| == 0 then ""
    else if |parts| == 1 then parts[0]
    else parts[0] + [sep] + Join(parts[1..], sep)
  }

  predicate Free(s: string, sep: char) {
    sep !in s
  }

  predicate AllFree(parts: seq<string>, sep: char) {
    forall i :: 0 <= i < |parts| ==> Free(parts[i], sep)
  }

  /** Two separator-free heads in front of equal text ending in, or cut at, a separator are equal. */
  lemma {:induction false} HeadsAgree(p: string, q: string, x: string, y: string, sep: char)
    requires Free(p, sep) && Free(q, sep)
    requires p + [sep] + x <= q + [sep] + y
    ensures p == q && x <= y
  {
    var s, t := p + [sep] + x, q + [sep] + y;
    assert s[|p|] == sep == t[|p|] && t[|q|] == sep;
    assert forall i :: 0 <= i < |q| ==> t[i] == q[i] && q[i] != sep;
    assert forall i :: 0 <= i < |p| ==> s[i] == p[i] && p[i] != sep;
    assert |p| == |q|;
    assert p == s[..|p|] == t[..|p|] == q;
    assert x == s[|p| + 1..] && y == t[|p| + 1..];
    assert |x| <= |y| && x == t[..|s|][|p| + 1..] == y[..|x|];
  }

  /** A joined prefix closed by its separator starts exactly the joins of its proper extensions. */
  lemma {:induction false} JoinPrefix(ps: seq<string>, qs: seq<string>, sep: char)
    requires |ps| > 0 && |qs| > 0 && AllFree(ps, sep) && AllFree(qs, sep)
    ensures Join(ps, sep) + [sep] <= Join(qs, sep) <==> ps < qs
    decreases |ps|
  {
    assert Free(ps[0], sep) && Free(qs[0], sep);
    var left, right := Join(ps, sep) + [sep], Join(qs, sep);
    if |qs| == 1 {
      assert left[|left| - 1] == sep;
      assert forall i :: 0 <= i < |right| ==> right[i] != sep;
    } else {
      assert right == qs[0] + [sep] + Join(qs[1..], sep);
      if |ps| == 1 {
        if left <= right {
          assert left == ps[0] + [sep] + "";
          HeadsAgree(ps[0], qs[0], "", Join(qs[1..], sep), sep);
        }
      } else {
        assert AllFree(ps[1..], sep) && AllFree(qs[1..], sep);
        JoinPrefix(ps[1..], qs[1..], sep);
        var x, y := Join(ps[1..], sep) + [sep], Join(qs[1..], sep);
        assert left == ps[0] + [sep] + x;
        if left <= right { HeadsAgree(ps[0], qs[0], x, y, sep); }
        assert ps == [ps[0]] + ps[1..] && qs == [qs[0]] + qs[1..];
        if ps < qs { assert ps[0] == qs[0] && ps[1..] < qs[1..]; }
      }
    }
  }

  lemma SeparatorShows(ps: seq<string>, sep: char)
    requires |ps| > 0 && AllFree(ps, sep)
    ensures sep in Join(ps, sep) <==> |ps| > 1
  {
    assert Free(ps[0], sep);
    if |ps| > 1 { assert Join(ps, sep)[|ps[0]|] == sep; }
  }

  /** Separator-free parts can be read back from their join. */
  lemma {:induction false} JoinInjective(ps: seq<string>, qs: seq<string>, sep: char)
    requires |ps| > 0 && |qs| > 0 && AllFree(ps, sep) && AllFree(qs, sep)
    requires Join(ps, sep) == Join(qs, sep)
    ensures ps == qs
  {
    SeparatorShows(ps, sep);
    SeparatorShows(qs, sep);
    if |ps| > 1 {
      assert Free(ps[0], sep) && Free(qs[0], sep);
      HeadsAgree(ps[0], qs[0], Join(ps[1..], sep), Join(qs[1..], sep), sep);
      HeadsAgree(qs[0], ps[0], Join(qs[1..], sep), Join(ps[1..], sep), sep);
      JoinInjective(ps[1..], qs[1..], sep);
      assert ps == [ps[0]] + ps[1..] && qs == [qs[0]] + qs[1..];
    }
  }

  // ----- Printing integers -----

  function Digits(n: nat): string {
    if n < 10 then [('0' as int + n) as char] else Digits(n / 10) + Digits(n % 10)
  }

  function Itoa(n: int): string {
    if n < 0 then "-" + Digits(-n) else Digits(n)
  }

  lemma {:induction false} DigitsAreDigits(n: nat)
    ensures |Digits(n)| > 0 && forall i :: 0 <= i < |Digits(n)| ==> IsDigit(Digits(n)[i])
  {
    if n >= 10 { DigitsAreDigits(n / 10); DigitsAreDigits(n % 10); }
  }

  lemma {:induction false} DigitsInjective(m: nat, n: nat)
    requires Digits(m) == Digits(n)
    ensures m == n
  {
    DigitsAreDigits(m / 10); DigitsAreDigits(n / 10);
    if m >= 10 && n >= 10 {
      assert |Digits(m % 10)| == 1 && |Digits(n % 10)| == 1;
      assert Digits(m / 10) == Digits(m)[..|Digits(m)| - 1];
      assert Digits(n / 10) == Digits(n)[..|Digits(n)| - 1];
      DigitsInjective(m / 10, n / 10);
      assert Digits(m)[|Digits(m)| - 1] == Digits(m % 10)[0];
      assert Digits(n)[|Digits(n)| - 1] == Digits(n % 10)[0];
    }
  }

  /** Printed integers differ when the integers do, and never contain the separator of a key. */
  lemma ItoaInjective(m: int, n: int)
    ensures Itoa(m) == Itoa(n) <==> m == n
    ensures Free(Itoa(m), ':')
  {
    DigitsAreDigits(if m < 0 then -m else m);
    DigitsAreDigits(if n < 0 then -n else n);
    if Itoa(m) == Itoa(n) {
      assert m < 0 <==> Itoa(m)[0] == '-';
      assert n < 0 <==> Itoa(n)[0] == '-';
      if m < 0 {
        assert Digits(-m) == Itoa(m)[1..] && Digits(-n) == Itoa(n)[1..];
        DigitsInjective(-m, -n);
      } else {
        DigitsInjective(m, n);
      }
    }
  }
}
