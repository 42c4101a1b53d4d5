/** Cache keys and the prefixes that sweep them (internal/platform/cache/keys.go). */
module Keys {
  import opened Text

  /** A colon inside a part would add a level, so it becomes an underscore. */
  function Clean(part: string): string {
    seq(|part|, i requires 0 <= i < |part| => if part[i] == ':' then '_' else part[i])
  }

  function CleanAll(parts: seq<string>): seq<string> {
    seq(|parts|, i requires 0 <= i < |parts| => Clean(parts[i]))
  }

  function KeyOf(parts: seq<string>): string {
    Join(["karlo", "v1"] + CleanAll(parts), ':')
  }

  function PrefixOf(parts: seq<string>): string {
    KeyOf(parts) + ":"
  }

  method Key(parts: seq<string>) returns (key: string)
    ensures key == KeyOf(parts)
  {
    var cleaned := ["karlo", "v1"];
    for i := 0 to |parts|
      invariant cleaned == ["karlo", "v1"] + CleanAll(parts[..i])
    {
      cleaned := cleaned + [Clean(parts[i])];
    }
    assert parts[..|parts|] == parts;
    key := Join(cleaned, ':');
  }

  /** What a sweep of the parts deletes by: the start of every key whose parts go on from these, and of no other. */
  method Prefix(parts: seq<string>) returns (prefix: string)
    ensures prefix == PrefixOf(parts)
    ensures forall qs :: prefix <= KeyOf(qs) <==> CleanAll(parts) < CleanAll(qs)
  {
    var key := Key(parts);
    prefix := key + ":";
    forall qs ensures prefix <= KeyOf(qs) <==> CleanAll(parts) < CleanAll(qs) { SweepIsExact(parts, qs); }
  }

  lemma LevelsAreFree(parts: seq<string>)
    ensures AllFree(["karlo", "v1"] + CleanAll(parts), ':')
  {
  }

  /**
   * Sweeping a prefix removes exactly one family: the keys whose cleaned parts properly
   * extend the cleaned parts of the prefix, and no key that merely looks alike.
   */
  lemma SweepIsExact(ps: seq<string>, qs: seq<string>)
    ensures PrefixOf(ps) <= KeyOf(qs) <==> CleanAll(ps) < CleanAll(qs)
  {
    LevelsAreFree(ps);
    LevelsAreFree(qs);
    var root := ["karlo", "v1"];
    var p, q := root + CleanAll(ps), root + CleanAll(qs);
    JoinPrefix(p, q, ':');
    assert CleanAll(ps) == p[2..] && CleanAll(qs) == q[2..];
    if p < q { assert CleanAll(ps) < CleanAll(qs); }
    if CleanAll(ps) < CleanAll(qs) { assert p < q; }
  }

  /** Two keys collide exactly when their cleaned parts do. */
  lemma KeysCollide(ps: seq<string>, qs: seq<string>)
    ensures KeyOf(ps) == KeyOf(qs) <==> CleanAll(ps) == CleanAll(qs)
  {
    LevelsAreFree(ps);
    LevelsAreFree(qs);
    var root := ["karlo", "v1"];
    var p, q := root + CleanAll(ps), root + CleanAll(qs);
    if KeyOf(ps) == KeyOf(qs) {
      JoinInjective(p, q, ':');
      assert CleanAll(ps) == p[2..] && CleanAll(qs) == q[2..];
    }
  }

  /** Cleaning is invisible on a part without a colon. */
  lemma CleanIdentity(part: string)
    requires Free(part, ':')
    ensures Clean(part) == part
  {
  }
}
