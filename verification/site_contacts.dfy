/** A site's contact list and the single contact that mirrors its default (site_write.go). */
module SiteContacts {
  import opened Wrappers
  import opened Text

  datatype Contact = Contact(id: string, name: string, phone: string, isDefault: bool)

  datatype ContactInput = ContactInput(id: string, name: string, phone: string, isDefault: bool)

  /** A list replaces the contacts; without one, a name or phone edits the default. */
  datatype Input = Input(pics: Option<seq<ContactInput>>, name: string, phone: string)

  function NilIfBlank(v: string): Option<string> {
    if Trim(v) == "" then None else Some(Trim(v))
  }

  // ----- What the list promises -----

  predicate AtMostOneDefault(list: seq<Contact>) {
    forall i, j :: 0 <= i < j < |list| ==> !(list[i].isDefault && list[j].isDefault)
  }

  predicate HasDefault(list: seq<Contact>) {
    exists i :: 0 <= i < |list| && list[i].isDefault
  }

  predicate Blank(p: ContactInput) {
    Trim(p.name) == "" && Trim(p.phone) == ""
  }

  /** The rows of the form that become contacts. */
  function Entered(rows: seq<ContactInput>): seq<ContactInput> {
    if rows == [] then []
    else if Blank(rows[|rows| - 1]) then Entered(rows[..|rows| - 1])
    else Entered(rows[..|rows| - 1]) + [rows[|rows| - 1]]
  }

  predicate Nameless(rows: seq<ContactInput>) {
    exists i :: 0 <= i < |rows| && Trim(rows[i].name) == "" && Trim(rows[i].phone) != ""
  }

  /** The contact says what the row says; a row without an id gets some id. */
  predicate Says(c: Contact, p: ContactInput) {
    c.name == Trim(p.name) && c.phone == Trim(p.phone) && (Trim(p.id) != "" ==> c.id == Trim(p.id))
  }

  /** The position of the default a list of rows asks for: the first flagged, else the first. */
  ghost predicate DefaultAsked(rows: seq<ContactInput>, k: nat) {
    && k < |rows|
    && (|| (rows[k].isDefault && forall i :: 0 <= i < k ==> !rows[i].isDefault)
        || (k == 0 && forall i :: 0 <= i < |rows| ==> !rows[i].isDefault))
  }

  /** The mirror shows the default, and nothing when there is none. */
  ghost predicate Mirrors(list: seq<Contact>, name: Option<string>, phone: Option<string>) {
    && (!HasDefault(list) ==> name == None && phone == None)
    && (HasDefault(list) ==> exists i ::
          && 0 <= i < |list| && list[i].isDefault
          && name == NilIfBlank(list[i].name) && phone == NilIfBlank(list[i].phone))
  }

  /** The single contact's effect: the first default edited in place, or a new default joined. */
  ghost predicate Edited(before: seq<Contact>, after: seq<Contact>, name: string, phone: string, newId: string) {
    if HasDefault(before) then
      exists k :: 0 <= k < |before| && before[k].isDefault && (forall i :: 0 <= i < k ==> !before[i].isDefault)
        && after == before[k := before[k].(name := if name != "" then name else before[k].name,
                                           phone := if phone != "" then phone else before[k].phone)]
    else
      after == before + [Contact(newId, if name == "" then "PIC" else name, phone, true)]
  }

  /** The list asked for: one contact for each entered row, in order, flagged as the rows ask. */
  ghost predicate Listed(rows: seq<ContactInput>, after: seq<Contact>) {
    && |after| == |rows|
    && (forall i :: 0 <= i < |after| ==> Says(after[i], rows[i]))
    && (forall i :: 0 <= i < |after| ==> (after[i].isDefault <==> DefaultAsked(rows, i)))
  }

  /** No id is minted twice. */
  ghost predicate Injective(mint: nat -> string) {
    forall m: nat, n: nat :: mint(m) == mint(n) ==> m == n
  }

  /** Rows without an id become contacts with different ids, all of them minted. */
  ghost predicate IdsMinted(rows: seq<ContactInput>, after: seq<Contact>, mint: nat -> string) {
    && |after| == |rows|
    && (forall i :: 0 <= i < |rows| && Trim(rows[i].id) == "" ==> exists n: nat :: after[i].id == mint(n))
    && (forall i, j :: 0 <= i < j < |rows| && Trim(rows[i].id) == "" && Trim(rows[j].id) == "" ==> after[i].id != after[j].id)
  }

  /** The form says something about the contacts. */
  predicate Speaks(input: Input) {
    input.pics.Some? || Trim(input.name) != "" || Trim(input.phone) != ""
  }

  /** What an accepted form leaves. */
  ghost predicate Outcome(before: seq<Contact>, input: Input, after: seq<Contact>, newId: string) {
    if input.pics.Some? then Listed(Entered(input.pics.value), after)
    else if Speaks(input) then Edited(before, after, Trim(input.name), Trim(input.phone), newId)
    else after == before
  }

  /** There is exactly one default to ask for. */
  lemma {:induction false} DefaultIsUnique(rows: seq<ContactInput>, j: nat, k: nat)
    requires DefaultAsked(rows, j) && DefaultAsked(rows, k)
    ensures j == k
  {
  }

  class Site {
    var pics: seq<Contact>
    var name: Option<string>
    var phone: Option<string>

    /**
     * Replaces or edits the contacts, then mirrors the default. A row with a phone and no name
     * refuses the whole list and changes nothing. A list keeps the entered rows in order with
     * exactly the default asked for; the single contact edits the default it finds, or joins
     * as the new one.
     */
    method ApplyPICs(input: Input, mint: nat -> string) returns (r: Reply<()>)
      modifies this
      ensures r.Refused? <==> input.pics.Some? && Nameless(input.pics.value)
      ensures r.Refused? ==> r.error == Validation && unchanged(this)
      ensures r.Ok? ==> Mirrors(pics, name, phone)
      ensures r.Ok? ==> Outcome(old(pics), input, pics, mint(0))
      ensures r.Ok? && input.pics.Some? && Injective(mint) ==> IdsMinted(Entered(input.pics.value), pics, mint)
    {
      if input.pics.Some? {
        var built := Build(input.pics.value, mint);
        if built.Refused? { return Refused(Validation); }
        pics := built.value;
      } else if Trim(input.name) != "" || Trim(input.phone) != "" {
        pics := Edit(pics, Trim(input.name), Trim(input.phone), mint(0));
      }
      name, phone := None, None;
      var k := DefaultOf(pics);
      if k < |pics| {
        name := NilIfBlank(pics[k].name);
        phone := NilIfBlank(pics[k].phone);
      }
      return Ok(());
    }
  }

  /** Where the first default stands, or past the end. */
  method DefaultOf(list: seq<Contact>) returns (k: nat)
    ensures k <= |list| && (k < |list| ==> list[k].isDefault) && forall i :: 0 <= i < k ==> !list[i].isDefault
  {
    k := 0;
    while k < |list| && !list[k].isDefault
      invariant k <= |list| && forall i :: 0 <= i < k ==> !list[i].isDefault
    {
      k := k + 1;
    }
  }

  function ContactOf(p: ContactInput, newId: string, isDefault: bool): Contact {
    Contact(if Trim(p.id) == "" then newId else Trim(p.id), Trim(p.name), Trim(p.phone), isDefault)
  }

  /** The contacts of the rows so far, before a default is forced. */
  ghost function Contacts(rows: seq<ContactInput>, mint: nat -> string): seq<Contact> {
    if rows == [] then []
    else
      var last := rows[|rows| - 1];
      var rest := Contacts(rows[..|rows| - 1], mint);
      if Blank(last) then rest else rest + [ContactOf(last, mint(|rows| - 1), last.isDefault && !HasDefault(rest))]
  }

  /** No row before `first` is flagged, and the row there, if any, is. */
  ghost predicate FlagsUpTo(rows: seq<ContactInput>, first: nat) {
    first <= |rows| && (first < |rows| ==> rows[first].isDefault) && forall i :: 0 <= i < first ==> !rows[i].isDefault
  }

  lemma AskedIs(rows: seq<ContactInput>, first: nat)
    requires FlagsUpTo(rows, first)
    ensures forall k: nat :: DefaultAsked(rows, k) <==> k < |rows| && k == if first < |rows| then first else 0
  {
  }

  /** The contacts say what the entered rows say, in order, and flag the first flagged row only. */
  lemma {:induction false} ContactsSay(rows: seq<ContactInput>, mint: nat -> string) returns (first: nat)
    ensures var (list, entered) := (Contacts(rows, mint), Entered(rows));
      && |list| == |entered| && (forall k :: 0 <= k < |list| ==> Says(list[k], entered[k]))
      && FlagsUpTo(entered, first) && (forall k :: 0 <= k < |list| ==> (list[k].isDefault <==> k == first))
      && (HasDefault(list) <==> first < |list|)
  {
    first := 0;
    if rows != [] {
      var head, last := rows[..|rows| - 1], rows[|rows| - 1];
      first := ContactsSay(head, mint);
      var before := Entered(head);
      if !Blank(last) && first == |before| && !last.isDefault { first := first + 1; }
      var list := Contacts(rows, mint);
      assert first < |list| ==> list[first].isDefault;
    }
  }

  /** The ids minted so far were minted for earlier rows. */
  ghost predicate MintedBefore(rows: seq<ContactInput>, after: seq<Contact>, mint: nat -> string, bound: nat) {
    |after| == |rows| && forall k :: 0 <= k < |rows| && Trim(rows[k].id) == "" ==> exists n: nat :: n < bound && after[k].id == mint(n)
  }

  lemma MintedJoin(entered: seq<ContactInput>, list: seq<Contact>, last: ContactInput, c: Contact, mint: nat -> string, n: nat)
    requires Injective(mint) && IdsMinted(entered, list, mint) && MintedBefore(entered, list, mint, n)
    requires Trim(last.id) == "" ==> c.id == mint(n)
    ensures IdsMinted(entered + [last], list + [c], mint) && MintedBefore(entered + [last], list + [c], mint, n + 1)
  {
    var (rows, after) := (entered + [last], list + [c]);
    forall k | 0 <= k < |rows| && Trim(rows[k].id) == "" ensures exists m: nat :: m < n + 1 && after[k].id == mint(m) {
      if k < |entered| { assert rows[k] == entered[k] && after[k] == list[k]; } else { assert after[k].id == mint(n); }
    }
    forall i, j | 0 <= i < j < |rows| && Trim(rows[i].id) == "" && Trim(rows[j].id) == "" ensures after[i].id != after[j].id {
      assert rows[i] == entered[i] && after[i] == list[i];
      if j == |entered| {
        var m: nat :| m < n && list[i].id == mint(m);
        assert mint(m) != mint(n);
      } else {
        assert rows[j] == entered[j] && after[j] == list[j];
      }
    }
  }

  lemma {:induction false} ContactsAreMinted(rows: seq<ContactInput>, mint: nat -> string)
    requires Injective(mint)
    ensures IdsMinted(Entered(rows), Contacts(rows, mint), mint) && MintedBefore(Entered(rows), Contacts(rows, mint), mint, |rows|)
  {
    if rows != [] {
      var head, last := rows[..|rows| - 1], rows[|rows| - 1];
      ContactsAreMinted(head, mint);
      var (list, entered) := (Contacts(head, mint), Entered(head));
      if !Blank(last) {
        var c := ContactOf(last, mint(|head|), last.isDefault && !HasDefault(list));
        assert Contacts(rows, mint) == list + [c] && Entered(rows) == entered + [last];
        MintedJoin(entered, list, last, c, mint, |head|);
      }
    }
  }

  /** The first contact becomes the default when no row asked to be. */
  ghost function Finished(list: seq<Contact>): seq<Contact> {
    if list != [] && !HasDefault(list) then list[0 := list[0].(isDefault := true)] else list
  }

  lemma FinishedSays(rows: seq<ContactInput>, mint: nat -> string)
    ensures var (list, entered) := (Finished(Contacts(rows, mint)), Entered(rows));
      && |list| == |entered| && (forall i :: 0 <= i < |list| ==> Says(list[i], entered[i]))
      && (forall i :: 0 <= i < |list| ==> (list[i].isDefault <==> DefaultAsked(entered, i)))
  {
    var first := ContactsSay(rows, mint);
    AskedIs(Entered(rows), first);
  }

  lemma HasDefaultAppend(list: seq<Contact>, c: Contact)
    ensures HasDefault(list + [c]) <==> HasDefault(list) || c.isDefault
  {
    var all := list + [c];
    assert all[|list|] == c;
    if HasDefault(list) {
      var i :| 0 <= i < |list| && list[i].isDefault;
      assert all[i].isDefault;
    }
  }

  method Build(rows: seq<ContactInput>, mint: nat -> string) returns (r: Reply<seq<Contact>>)
    ensures r.Refused? <==> Nameless(rows)
    ensures r.Ok? ==> Listed(Entered(rows), r.value)
    ensures r.Ok? && Injective(mint) ==> IdsMinted(Entered(rows), r.value, mint)
  {
    var list: seq<Contact> := [];
    var seen := false;
    for i := 0 to |rows|
      invariant list == Contacts(rows[..i], mint) && seen == HasDefault(list)
      invariant forall k :: 0 <= k < i ==> Blank(rows[k]) || Trim(rows[k].name) != ""
    {
      assert rows[..i + 1][..i] == rows[..i];
      var p := rows[i];
      if Trim(p.name) == "" && Trim(p.phone) == "" { continue; }
      if Trim(p.name) == "" { return Refused(Validation); }
      var id := Trim(p.id);
      if id == "" { id := mint(i); }
      var isDefault := p.isDefault && !seen;
      if isDefault { seen := true; }
      HasDefaultAppend(list, Contact(id, Trim(p.name), Trim(p.phone), isDefault));
      list := list + [Contact(id, Trim(p.name), Trim(p.phone), isDefault)];
    }
    assert rows[..|rows|] == rows;
    FinishedSays(rows, mint);
    if Injective(mint) { ContactsAreMinted(rows, mint); }
    if |list| > 0 && !seen { list := list[0 := list[0].(isDefault := true)]; }
    return Ok(list);
  }

  method Edit(before: seq<Contact>, name: string, phone: string, newId: string) returns (after: seq<Contact>)
    ensures Edited(before, after, name, phone, newId)
  {
    var k := DefaultOf(before);
    if k == |before| {
      after := before + [Contact(newId, if name == "" then "PIC" else name, phone, |before| == 0)];
      if |after| > 1 {
        var last := |after| - 1;
        after := after[last := after[last].(isDefault := true)];
        for i := 0 to last
          invariant |after| == last + 1 && after[last] == Contact(newId, if name == "" then "PIC" else name, phone, true)
          invariant forall j :: 0 <= j < last ==> after[j] == before[j]
        {
          after := after[i := after[i].(isDefault := false)];
        }
      }
    } else {
      after := before;
      if name != "" { after := after[k := after[k].(name := name)]; }
      if phone != "" { after := after[k := after[k].(phone := phone)]; }
    }
  }

  /** Whatever list or contact was applied, exactly one default is left whenever anyone is. */
  lemma OneDefaultAfterList(rows: seq<ContactInput>, list: seq<Contact>)
    requires Listed(rows, list)
    ensures AtMostOneDefault(list) && (list != [] ==> HasDefault(list))
  {
    forall i: nat, j: nat | DefaultAsked(rows, i) && DefaultAsked(rows, j) ensures i == j { DefaultIsUnique(rows, i, j); }
    if list != [] {
      var k := FirstAsked(rows);
      assert list[k].isDefault;
    }
  }

  lemma FirstAsked(rows: seq<ContactInput>) returns (k: nat)
    requires rows != []
    ensures DefaultAsked(rows, k)
  {
    k := 0;
    while k < |rows| && !rows[k].isDefault
      invariant k <= |rows| && forall i :: 0 <= i < k ==> !rows[i].isDefault
    {
      k := k + 1;
    }
    if k == |rows| { k := 0; }
  }

  lemma OneDefaultAfterEdit(before: seq<Contact>, after: seq<Contact>, name: string, phone: string, newId: string)
    requires AtMostOneDefault(before) && Edited(before, after, name, phone, newId)
    ensures AtMostOneDefault(after) && HasDefault(after)
  {
    if HasDefault(before) {
      var k :| 0 <= k < |before| && before[k].isDefault && (forall i :: 0 <= i < k ==> !before[i].isDefault)
        && after == before[k := before[k].(name := if name != "" then name else before[k].name,
                                           phone := if phone != "" then phone else before[k].phone)];
      assert after[k].isDefault;
    } else {
      assert after[|before|].isDefault;
    }
  }

  /** At most one default, and one whenever there is anyone. */
  predicate Settled(list: seq<Contact>) {
    AtMostOneDefault(list) && (list != [] ==> HasDefault(list))
  }

  /**
   * A list with at most one default keeps at most one; it has one whenever there is anyone,
   * if and only if the form said something, or that was so before. A silent form repairs nothing.
   */
  lemma OneDefaultExactly(before: seq<Contact>, input: Input, after: seq<Contact>, newId: string)
    requires AtMostOneDefault(before) && Outcome(before, input, after, newId)
    ensures AtMostOneDefault(after)
    ensures Settled(after) <==> Speaks(input) || Settled(before)
  {
    if input.pics.Some? {
      OneDefaultAfterList(Entered(input.pics.value), after);
    } else if Speaks(input) {
      OneDefaultAfterEdit(before, after, Trim(input.name), Trim(input.phone), newId);
    }
  }

  /** A stored list nobody was made the default of stays that way under a silent form. */
  lemma SilentFormRepairsNothing(c: Contact, newId: string)
    requires !c.isDefault
    ensures Outcome([c], Input(None, "", ""), [c], newId) && AtMostOneDefault([c]) && !Settled([c])
  {
    assert Trim("") == "";
  }
}
