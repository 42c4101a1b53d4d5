/**
 * When rows clash, the point query means the later fitting to win. It compares a row with one
 * the database picks for the standing IMEI, so it succeeds exactly when the picks are telling.
 */
module DeviceTies {
  import opened Wrappers
  import opened Records
  import opened Devices

  predicate Candidate(a: Assignment, v: string) {
    a.vehicleId == v && a.imei != ""
  }

  /** No admitted row of the vehicle was fitted later. */
  ghost predicate Top(admitted: seq<Assignment>, v: string, b: Assignment) {
    b in admitted && Candidate(b, v) && forall a :: a in admitted && Candidate(a, v) ==> a.fittedAt <= b.fittedAt
  }

  /** The IMEI of a latest fitting. */
  ghost predicate Latest(admitted: seq<Assignment>, v: string, imei: string) {
    exists b :: Top(admitted, v, b) && b.imei == imei
  }

  /** An admitted row of an IMEI without a latest fitting. */
  ghost predicate Loser(admitted: seq<Assignment>, v: string, a: Assignment) {
    a in admitted && Candidate(a, v) && !Latest(admitted, v, a.imei)
  }

  /** Whatever the order of the rows and whatever the picks, a latest fitting wins. */
  ghost predicate LaterWins(rows: seq<Assignment>, admitted: seq<Assignment>, v: string) {
    forall cursor, pick :: multiset(cursor) == multiset(admitted) && Picks(rows, pick) && v in Tally(cursor, pick) ==>
      Latest(admitted, v, Tally(cursor, pick)[v])
  }

  /** Every row a winner could be judged by is later than every loser's row. */
  ghost predicate WinnersHold(rows: seq<Assignment>, admitted: seq<Assignment>, v: string) {
    forall a, imei, at :: Loser(admitted, v, a) && Latest(admitted, v, imei) && HasRow(rows, v, imei, at) ==> a.fittedAt < at
  }

  /** No row a loser could be judged by is later than a latest fitting. */
  ghost predicate LosersYield(rows: seq<Assignment>, admitted: seq<Assignment>, v: string) {
    forall a, b, at :: Loser(admitted, v, a) && Top(admitted, v, b) && HasRow(rows, v, a.imei, at) ==> at <= b.fittedAt
  }

  // ----- Sufficient -----

  /** A winner that stands is not displaced by a loser. */
  lemma WinnerStands(rows: seq<Assignment>, admitted: seq<Assignment>, v: string, pick: Pick, imei: string, a: Assignment, at: Time)
    requires WinnersHold(rows, admitted, v) && Picks(rows, pick) && HasRow(rows, v, imei, at)
    requires Latest(admitted, v, imei) && a in admitted && Candidate(a, v)
    ensures Latest(admitted, v, Stands(Some(imei), a, pick))
  {
    var r :| r in rows && r.vehicleId == v && r.imei == imei && r.fittedAt == at;
    assert HasRow(rows, v, imei, pick(v, imei));
    if !Latest(admitted, v, a.imei) { assert Loser(admitted, v, a); }
  }

  /** A latest fitting displaces whatever stands. */
  lemma LatestTakesOver(rows: seq<Assignment>, admitted: seq<Assignment>, v: string, pick: Pick, c: Assignment, b: Assignment)
    requires LosersYield(rows, admitted, v) && Picks(rows, pick)
    requires c in admitted && c in rows && Candidate(c, v) && Top(admitted, v, b)
    ensures Latest(admitted, v, Stands(Some(c.imei), b, pick))
  {
    assert HasRow(rows, v, c.imei, c.fittedAt);
    assert HasRow(rows, v, c.imei, pick(v, c.imei));
    if !Latest(admitted, v, c.imei) { assert Loser(admitted, v, c); }
  }

  /** A latest fitting that stands is not displaced by the next row. */
  lemma WinnerSurvives(rows: seq<Assignment>, admitted: seq<Assignment>, head: seq<Assignment>, v: string, pick: Pick, a: Assignment)
    requires WinnersHold(rows, admitted, v) && Picks(rows, pick) && a in admitted && Candidate(a, v)
    requires (forall x :: x in head ==> x in rows) && v in Tally(head, pick) && Latest(admitted, v, Tally(head, pick)[v])
    ensures Latest(admitted, v, Stands(Some(Tally(head, pick)[v]), a, pick))
  {
    TallyNamesRows(head, pick);
    var c: Assignment :| c in head && c.vehicleId == v && c.imei == Tally(head, pick)[v];
    assert HasRow(rows, v, c.imei, c.fittedAt);
    WinnerStands(rows, admitted, v, pick, c.imei, a, c.fittedAt);
  }

  /** A latest fitting displaces whatever stands, if anything does. */
  lemma LatestArrives(rows: seq<Assignment>, admitted: seq<Assignment>, head: seq<Assignment>, v: string, pick: Pick, b: Assignment)
    requires LosersYield(rows, admitted, v) && Picks(rows, pick) && Top(admitted, v, b)
    requires forall x :: x in head ==> x in admitted && x in rows
    ensures Latest(admitted, v, Stands(if v in Tally(head, pick) then Some(Tally(head, pick)[v]) else None, b, pick))
  {
    if v in Tally(head, pick) {
      TallyNamesRows(head, pick);
      var c: Assignment :| c in head && c.vehicleId == v && c.imei == Tally(head, pick)[v] && c.imei != "";
      LatestTakesOver(rows, admitted, v, pick, c, b);
    }
  }

  /** Once a latest fitting has been seen, the answer is one. */
  lemma {:induction false} LatestStays(rows: seq<Assignment>, admitted: seq<Assignment>, cursor: seq<Assignment>, v: string, pick: Pick)
    requires WinnersHold(rows, admitted, v) && LosersYield(rows, admitted, v) && Picks(rows, pick)
    requires forall a :: a in cursor ==> a in admitted && a in rows
    requires exists b :: b in cursor && Top(admitted, v, b)
    ensures v in Tally(cursor, pick) && Latest(admitted, v, Tally(cursor, pick)[v])
    decreases |cursor|
  {
    var head, a := cursor[..|cursor| - 1], cursor[|cursor| - 1];
    assert a in cursor && forall x :: x in cursor <==> x in head || x == a;
    if b :| b in head && Top(admitted, v, b) {
      LatestStays(rows, admitted, head, v, pick);
      if Candidate(a, v) { WinnerSurvives(rows, admitted, head, v, pick, a); }
    } else {
      LatestArrives(rows, admitted, head, v, pick, a);
    }
  }

  lemma {:induction false} TopExists(rows: seq<Assignment>, v: string, c: Assignment) returns (b: Assignment)
    requires c in rows && Candidate(c, v)
    ensures Top(rows, v, b)
  {
    var head, last := rows[..|rows| - 1], rows[|rows| - 1];
    assert forall x :: x in rows <==> x in head || x == last;
    if x :| x in head && Candidate(x, v) {
      b := TopExists(head, v, x);
      if Candidate(last, v) && b.fittedAt < last.fittedAt { b := last; }
    } else {
      b := last;
    }
  }

  lemma SameRows(xs: seq<Assignment>, ys: seq<Assignment>)
    requires multiset(xs) == multiset(ys)
    ensures forall a :: a in xs <==> a in ys
  {
    assert forall a :: a in xs <==> a in multiset(xs);
    assert forall a :: a in ys <==> a in multiset(ys);
  }

  lemma HoldingAndYieldingSuffice(rows: seq<Assignment>, admitted: seq<Assignment>, v: string)
    requires (forall a :: a in admitted ==> a in rows) && WinnersHold(rows, admitted, v) && LosersYield(rows, admitted, v)
    ensures LaterWins(rows, admitted, v)
  {
    forall cursor, pick | multiset(cursor) == multiset(admitted) && Picks(rows, pick) && v in Tally(cursor, pick)
      ensures Latest(admitted, v, Tally(cursor, pick)[v])
    {
      SameRows(cursor, admitted);
      TallyNamesRows(cursor, pick);
      var c: Assignment :| c in cursor && c.vehicleId == v && c.imei == Tally(cursor, pick)[v] && c.imei != "";
      var b := TopExists(admitted, v, c);
      LatestStays(rows, admitted, cursor, v, pick);
    }
  }

  // ----- Necessary -----

  ghost function SomeRow(rows: seq<Assignment>, v: string, imei: string): Time {
    if at :| HasRow(rows, v, imei, at) then at else 0
  }

  /** A database that picks one chosen row, and otherwise an admitted one where there is any. */
  ghost function PickFor(rows: seq<Assignment>, admitted: seq<Assignment>, v: string, imei: string, at: Time): Pick {
    (x: string, i: string) =>
      if x == v && i == imei then at
      else if exists t :: HasRow(admitted, x, i, t) then SomeRow(admitted, x, i)
      else SomeRow(rows, x, i)
  }

  lemma PickExists(rows: seq<Assignment>, admitted: seq<Assignment>, v: string, imei: string, at: Time) returns (pick: Pick)
    requires HasRow(rows, v, imei, at) && forall a :: a in admitted ==> a in rows
    ensures Picks(rows, pick) && pick(v, imei) == at
    ensures forall a :: a in admitted && a.vehicleId == v && a.imei != imei ==> HasRow(admitted, v, a.imei, pick(v, a.imei))
  {
    pick := PickFor(rows, admitted, v, imei, at);
    forall r | r in rows ensures HasRow(rows, r.vehicleId, r.imei, pick(r.vehicleId, r.imei)) {
      assert HasRow(rows, r.vehicleId, r.imei, r.fittedAt);
    }
    forall a | a in admitted && a.vehicleId == v && a.imei != imei ensures HasRow(admitted, v, a.imei, pick(v, a.imei)) {
      assert HasRow(admitted, v, a.imei, a.fittedAt);
    }
  }

  function Without(rows: seq<Assignment>, a: Assignment): seq<Assignment> {
    if rows == [] then [] else if rows[0] == a then rows[1..] else [rows[0]] + Without(rows[1..], a)
  }

  lemma {:induction false} WithoutIsOneLess(rows: seq<Assignment>, a: Assignment)
    requires a in rows
    ensures multiset(Without(rows, a)) + multiset{a} == multiset(rows)
    ensures forall x :: x in Without(rows, a) ==> x in rows
    ensures forall x :: x in rows && x != a ==> x in Without(rows, a)
  {
    assert rows == [rows[0]] + rows[1..];
    if rows[0] != a { WithoutIsOneLess(rows[1..], a); }
  }

  /** A loser judged by a row later than every candidate keeps its place once it has it. */
  lemma {:induction false} LoserStays(first: Assignment, rest: seq<Assignment>, v: string, pick: Pick)
    requires Candidate(first, v)
    requires forall a :: a in rest && Candidate(a, v) ==> a.fittedAt < pick(v, first.imei)
    ensures var out := Tally([first] + rest, pick); v in out && out[v] == first.imei
  {
    var all := [first] + rest;
    if rest == [] {
      assert all[..0] == [] && all[0] == first;
    } else {
      assert all[..|all| - 1] == [first] + rest[..|rest| - 1];
      assert rest[|rest| - 1] in rest;
      LoserStays(first, rest[..|rest| - 1], v, pick);
    }
  }

  /** Any row may be read first. */
  lemma OneFirst(admitted: seq<Assignment>, a: Assignment) returns (rest: seq<Assignment>)
    requires a in admitted
    ensures multiset([a] + rest) == multiset(admitted)
    ensures forall x :: x in rest ==> x in admitted
  {
    WithoutIsOneLess(admitted, a);
    rest := Without(admitted, a);
    assert multiset([a] + rest) == multiset(rest) + multiset{a};
  }

  lemma YieldingIsNeeded(rows: seq<Assignment>, admitted: seq<Assignment>, v: string, a: Assignment, b: Assignment, at: Time)
    requires forall x :: x in admitted ==> x in rows
    requires Loser(admitted, v, a) && Top(admitted, v, b) && HasRow(rows, v, a.imei, at) && b.fittedAt < at
    ensures !LaterWins(rows, admitted, v)
  {
    var pick := PickExists(rows, admitted, v, a.imei, at);
    var rest := OneFirst(admitted, a);
    var cursor := [a] + rest;
    LoserStays(a, rest, v, pick);
    assert Tally(cursor, pick)[v] == a.imei;
  }

  /** Two rows at the end of the cursor, one after the other. */
  lemma TallyOfLast(rest: seq<Assignment>, b: Assignment, pick: Pick)
    requires b.imei != ""
    ensures var before := Tally(rest, pick);
            Tally(rest + [b], pick) ==
              before[b.vehicleId := Stands(if b.vehicleId in before then Some(before[b.vehicleId]) else None, b, pick)]
  {
    assert (rest + [b])[..|rest|] == rest;
  }

  /** A latest fitting that comes in is, or becomes, the answer when the others are judged by admitted rows. */
  lemma LatestComesIn(rest: seq<Assignment>, admitted: seq<Assignment>, v: string, b: Assignment, pick: Pick)
    requires (forall x :: x in rest ==> x in admitted) && Top(admitted, v, b)
    requires forall x :: x in admitted && x.vehicleId == v && x.imei != b.imei ==> HasRow(admitted, v, x.imei, pick(v, x.imei))
    ensures v in Tally(rest + [b], pick) && Tally(rest + [b], pick)[v] == b.imei
  {
    TallyNamesRows(rest, pick);
    TallyOfLast(rest, b, pick);
    var before := Tally(rest, pick);
    if v in before && before[v] != b.imei {
      var c: Assignment :| c in rest && c.vehicleId == v && c.imei == before[v] && c.imei != "";
      assert HasRow(admitted, v, c.imei, pick(v, c.imei));
      var r :| r in admitted && r.vehicleId == v && r.imei == c.imei && r.fittedAt == pick(v, c.imei);
      assert Candidate(r, v);
    }
  }

  /** Two different rows may be read last and in this order. */
  lemma TwoLast(admitted: seq<Assignment>, b: Assignment, a: Assignment) returns (rest: seq<Assignment>)
    requires a in admitted && b in admitted && a != b
    ensures multiset(rest + [b] + [a]) == multiset(admitted)
    ensures forall x :: x in rest ==> x in admitted
  {
    WithoutIsOneLess(admitted, a);
    WithoutIsOneLess(Without(admitted, a), b);
    rest := Without(Without(admitted, a), b);
    assert multiset(rest + [b] + [a]) == multiset(rest) + multiset{b} + multiset{a};
  }

  lemma HoldingIsNeeded(rows: seq<Assignment>, admitted: seq<Assignment>, v: string, a: Assignment, b: Assignment, at: Time)
    requires forall x :: x in admitted ==> x in rows
    requires Loser(admitted, v, a) && Top(admitted, v, b) && HasRow(rows, v, b.imei, at) && at <= a.fittedAt
    ensures !LaterWins(rows, admitted, v)
  {
    var pick := PickExists(rows, admitted, v, b.imei, at);
    var rest := TwoLast(admitted, b, a);
    var cursor := rest + [b] + [a];
    LatestComesIn(rest, admitted, v, b, pick);
    TallyOfLast(rest + [b], a, pick);
    assert Tally(cursor, pick)[v] == a.imei;
  }

  /** The later fitting wins in every order and with every pick if and only if winners hold and losers yield. */
  lemma LaterWinsExactly(rows: seq<Assignment>, admitted: seq<Assignment>, v: string)
    requires forall a :: a in admitted ==> a in rows
    ensures LaterWins(rows, admitted, v) <==> WinnersHold(rows, admitted, v) && LosersYield(rows, admitted, v)
  {
    if !WinnersHold(rows, admitted, v) {
      var a, imei, at :| Loser(admitted, v, a) && Latest(admitted, v, imei) && HasRow(rows, v, imei, at) && at <= a.fittedAt;
      var b :| Top(admitted, v, b) && b.imei == imei;
      HoldingIsNeeded(rows, admitted, v, a, b, at);
    } else if !LosersYield(rows, admitted, v) {
      var a, b, at :| Loser(admitted, v, a) && Top(admitted, v, b) && HasRow(rows, v, a.imei, at) && b.fittedAt < at;
      YieldingIsNeeded(rows, admitted, v, a, b, at);
    } else {
      HoldingAndYieldingSuffice(rows, admitted, v);
    }
  }

  /** One stretch per vehicle and IMEI is enough: then the picked row is the admitted row itself. */
  lemma OneStretchEachIsEnough(rows: seq<Assignment>, admitted: seq<Assignment>, v: string)
    requires forall a :: a in admitted ==> a in rows
    requires forall imei, x, y :: HasRow(rows, v, imei, x) && HasRow(rows, v, imei, y) ==> x == y
    ensures LaterWins(rows, admitted, v)
  {
    forall a, imei, at | Loser(admitted, v, a) && Latest(admitted, v, imei) && HasRow(rows, v, imei, at) ensures a.fittedAt < at {
      var b :| Top(admitted, v, b) && b.imei == imei;
      assert HasRow(rows, v, imei, b.fittedAt);
      assert a.fittedAt == b.fittedAt ==> Top(admitted, v, a);
    }
    forall a, b, at | Loser(admitted, v, a) && Top(admitted, v, b) && HasRow(rows, v, a.imei, at) ensures at <= b.fittedAt {
      assert HasRow(rows, v, a.imei, a.fittedAt);
    }
    HoldingAndYieldingSuffice(rows, admitted, v);
  }
}
