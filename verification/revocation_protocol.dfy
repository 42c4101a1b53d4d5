/**
 * How revocations travel (redis.go): a durable record with a time to live, then an
 * announcement that may be lost, and on each subscriber an event loop that applies
 * announcements, rereads the durable set and prunes.
 */
module RevocationProtocol {
  import opened Wrappers
  import opened Text
  import opened RevocationList

  datatype Record = Record(event: Event, expires: Time)

  function KindName(kind: Kind): string {
    match kind
    case Session => "session"
    case User => "user"
    case Company => "company"
  }

  function StoreKey(e: Event): string {
    "revoked:" + KindName(e.kind) + ":" + e.id
  }

  /** One record per kind and id: the key grammar never merges two names. */
  lemma StoreKeysDistinct()
    ensures forall a: Event, b: Event :: StoreKey(a) == StoreKey(b) <==> a.kind == b.kind && a.id == b.id
  {
    forall a: Event, b: Event | StoreKey(a) == StoreKey(b) ensures a.kind == b.kind && a.id == b.id {
      var x, y := KindName(a.kind), KindName(b.kind);
      assert x + [':'] + a.id == StoreKey(a)[8..] && y + [':'] + b.id == StoreKey(b)[8..];
      HeadsAgree(x, y, a.id, b.id, ':');
      HeadsAgree(y, x, b.id, a.id, ':');
      assert |x| == 7 || |x| == 4;
    }
  }

  // ----- The whole system as steps -----

  /** A reread in progress: keys still to fetch, events fetched, and what was durable history when it began. */
  datatype Scan = Scan(pending: set<string>, got: seq<Event>, base: set<Event>)

  datatype State = State(
    now: Time,
    durable: map<string, Record>,
    history: set<Event>,      // every event ever durably published
    announced: set<Event>,    // announcements sent; each may arrive any number of times, or never
    view: View,
    scan: Option<Scan>)

  datatype Step =
    | Publish(e: Event)
    | Announce(e: Event)
    | Deliver(e: Event)
    | BeginScan
    | ReadKey(key: string)
    | ReadFails(key: string)  // a read error other than absence, which the loop skips just the same
    | EndScan
    | ScanFails
    | PruneNow
    | Expire(key: string)
    | Tick(elapsed: nat)
    | Restart

  function Start(now: Time): State {
    State(now, map[], {}, {}, View(EMPTY, false), None)
  }

  /** A token that event e could cover has expired by now. */
  predicate Spent(e: Event, now: Time, life: Time) {
    if e.kind == Session then e.at + life <= now else e.at + life <= now + 1
  }

  predicate SameName(e: Event, f: Event) {
    e.kind == f.kind && e.id == f.id
  }

  /** A publisher does not move a cutoff back while it still matters. Ended sessions need no order. */
  ghost predicate Orderly(s: State, e: Event, life: Time) {
    e.kind == Session || forall f :: f in s.history && SameName(e, f) ==> f.at <= e.at || Spent(f, s.now, life)
  }

  /** What the mechanism itself requires of a step. The loop is sequential, so nothing is applied mid-scan. */
  ghost predicate Possible(s: State, step: Step) {
    match step
    case Publish(e) => e.id != ""  // an event without an id is unreadable to everybody
    case Announce(e) => e in s.history
    case Deliver(e) => e in s.announced && s.scan.None?
    case BeginScan => s.scan.None?
    case ReadKey(_) => s.scan.Some?
    case ReadFails(_) => s.scan.Some?
    case EndScan => s.scan.Some? && s.scan.value.pending == {}
    case ScanFails => s.scan.Some?
    case PruneNow => s.scan.None?
    case Expire(k) => k in s.durable && s.durable[k].expires <= s.now
    case Tick(_) => true
    case Restart => true
  }

  /** What an event published now covers will have expired by the time its record does. */
  predicate Timely(s: State, e: Event, life: Time) {
    Spent(e, s.now + life, life)
  }

  /** Possible, orderly and timely, and without a swallowed read error. */
  ghost predicate Enabled(s: State, step: Step, life: Time) {
    Possible(s, step) && !step.ReadFails? && (step.Publish? ==> Orderly(s, step.e, life) && Timely(s, step.e, life))
  }

  function Next(s: State, step: Step, life: Time): State {
    match step
    case Publish(e) =>
      s.(durable := s.durable[StoreKey(e) := Record(e, s.now + life)], history := s.history + {e})
    case Announce(e) => s.(announced := s.announced + {e})
    case Deliver(e) => s.(view := s.view.(lists := Applied(s.view.lists, e)))
    case BeginScan => s.(scan := Some(Scan(s.durable.Keys, [], s.history)))
    case ReadKey(k) =>
      if s.scan.None? then s
      else
        var c := s.scan.value;
        var got := if k in s.durable then c.got + [s.durable[k].event] else c.got;
        s.(scan := Some(c.(pending := c.pending - {k}, got := got)))
    case ReadFails(k) =>
      if s.scan.None? then s else s.(scan := Some(s.scan.value.(pending := s.scan.value.pending - {k})))
    case EndScan =>
      if s.scan.None? then s
      else s.(view := View(Replayed(s.scan.value.got), false), scan := None)
    case ScanFails => s.(view := s.view.(degraded := true), scan := None)
    case PruneNow => s.(view := s.view.(lists := Pruned(s.view.lists, s.now - life)))
    case Expire(k) => s.(durable := s.durable - {k})
    case Tick(elapsed) => s.(now := s.now + elapsed)
    case Restart => s.(view := View(EMPTY, false), scan := None)
  }

  function Run(s: State, steps: seq<Step>, life: Time): State
    decreases |steps|
  {
    if steps == [] then s else Run(Next(s, steps[0], life), steps[1..], life)
  }

  ghost predicate AllEnabled(s: State, steps: seq<Step>, life: Time)
    decreases |steps|
  {
    steps == [] || (Enabled(s, steps[0], life) && AllEnabled(Next(s, steps[0], life), steps[1..], life))
  }

  // ----- What every step keeps -----

  /** f, read from the store, stands for e: same name and a cutoff no earlier. */
  predicate StandsFor(f: Event, e: Event) {
    SameName(f, e) && (e.kind == Session || e.at <= f.at)
  }

  /** Every entry of the list is an event of h. */
  ghost predicate From(l: Lists, h: set<Event>) {
    && (forall id :: id in l.sessions ==> Event(Session, id, l.sessions[id]) in h)
    && (forall id :: id in l.users ==> Event(User, id, l.users[id]) in h)
    && (forall id :: id in l.companies ==> Event(Company, id, l.companies[id]) in h)
  }

  /** Each event still able to cover a live token has a record standing for it. */
  ghost predicate Recorded(s: State, life: Time) {
    && (forall k :: k in s.durable ==> s.durable[k].event in s.history && StoreKey(s.durable[k].event) == k)
    && (forall e :: e in s.history ==>
          && e.id != ""
          && (Spent(e, s.now, life) || (StoreKey(e) in s.durable && StandsFor(s.durable[StoreKey(e)].event, e))))
    && s.announced <= s.history
  }

  /** And no record expires before what its name covers has. */
  ghost predicate DurableInv(s: State, life: Time) {
    && Recorded(s, life)
    && (forall e :: e in s.history ==>
          Spent(e, s.now + life, life) && (StoreKey(e) in s.durable ==> Spent(e, s.durable[StoreKey(e)].expires, life)))
  }

  ghost predicate Collected(e: Event, c: Scan) {
    StoreKey(e) in c.pending || exists g :: g in c.got && StandsFor(g, e)
  }

  ghost predicate ScanInv(s: State, life: Time) {
    match s.scan
    case None => From(s.view.lists, s.history)
    case Some(c) =>
      && c.base <= s.history
      && From(s.view.lists, c.base)
      && (forall g :: g in c.got ==> g in s.history)
      && (forall e :: e in c.base ==> Spent(e, s.now, life) || Collected(e, c))
  }

  ghost predicate Inv(s: State, life: Time) {
    DurableInv(s, life) && ScanInv(s, life)
  }

  lemma {:induction false} ReplayFrom(events: seq<Event>, h: set<Event>)
    requires forall e :: e in events ==> e in h
    ensures From(Replayed(events), h)
  {
    if events != [] {
      ReplayFrom(events[..|events| - 1], h);
      assert events[|events| - 1] in events;
    }
  }

  lemma PublishKeepsRecorded(s: State, e: Event, life: Time)
    requires life > 0 && Recorded(s, life) && e.id != "" && Orderly(s, e, life)
    ensures Recorded(Next(s, Publish(e), life), life)
  {
    StoreKeysDistinct();
    var s' := Next(s, Publish(e), life);
    forall f | f in s'.history
      ensures Spent(f, s.now, life) || (StoreKey(f) in s'.durable && StandsFor(s'.durable[StoreKey(f)].event, f))
    {
      if StoreKey(f) == StoreKey(e) { assert SameName(e, f); }
    }
  }

  lemma PublishKeepsDurable(s: State, e: Event, life: Time)
    requires life > 0 && DurableInv(s, life) && e.id != "" && Orderly(s, e, life) && Timely(s, e, life)
    ensures DurableInv(Next(s, Publish(e), life), life)
  {
    PublishKeepsRecorded(s, e, life);
  }

  lemma ReadKeepsScan(s: State, k: string, life: Time)
    requires life > 0 && Inv(s, life) && s.scan.Some?
    ensures ScanInv(Next(s, ReadKey(k), life), life)
  {
    StoreKeysDistinct();
    var c, c' := s.scan.value, Next(s, ReadKey(k), life).scan.value;
    forall e | e in c.base && !Spent(e, s.now, life) ensures Collected(e, c') {
      if StoreKey(e) == k {
        var g := s.durable[k].event;
        assert g in c'.got && StandsFor(g, e);
      } else if StoreKey(e) !in c.pending {
        var g :| g in c.got && StandsFor(g, e);
        assert g in c'.got;
      }
    }
  }

  lemma TimeKeepsDurable(s: State, step: Step, life: Time)
    requires life > 0 && DurableInv(s, life) && Enabled(s, step, life) && (step.Tick? || step.Expire?)
    ensures DurableInv(Next(s, step, life), life)
  {
    StoreKeysDistinct();
    var s' := Next(s, step, life);
    assert forall e :: Spent(e, s.now, life) ==> Spent(e, s'.now, life);
    if step.Expire? {
      forall e | e in s.history && StoreKey(e) == step.key ensures Spent(e, s.now, life) {
        assert Spent(e, s.durable[step.key].expires, life);
      }
    }
  }

  lemma TimeKeepsInv(s: State, step: Step, life: Time)
    requires life > 0 && Inv(s, life) && Enabled(s, step, life) && (step.Tick? || step.Expire?)
    ensures Inv(Next(s, step, life), life)
  {
    TimeKeepsDurable(s, step, life);
    var s' := Next(s, step, life);
    assert forall e :: Spent(e, s.now, life) ==> Spent(e, s'.now, life);
  }

  lemma BeginKeepsInv(s: State, life: Time)
    requires life > 0 && Inv(s, life) && s.scan.None?
    ensures Inv(Next(s, BeginScan, life), life)
  {
    var c := Scan(s.durable.Keys, [], s.history);
    forall e | e in c.base ensures Spent(e, s.now, life) || Collected(e, c) { }
  }

  /** What the subscriber does to its list leaves the store alone, and lists only what was published. */
  lemma ListKeepsInv(s: State, step: Step, life: Time)
    requires life > 0 && Inv(s, life) && Possible(s, step)
    requires step.Deliver? || step.EndScan? || step.ScanFails? || step.PruneNow? || step.Restart?
    ensures Inv(Next(s, step, life), life)
  {
    var s' := Next(s, step, life);
    assert DurableInv(s', life);
    if step.EndScan? { ReplayFrom(s.scan.value.got, s.history); }
  }

  lemma StepKeepsInv(s: State, step: Step, life: Time)
    requires life > 0 && Inv(s, life) && Enabled(s, step, life)
    ensures Inv(Next(s, step, life), life)
  {
    match step
    case Publish(e) => PublishKeepsDurable(s, e, life);
    case ReadKey(k) => ReadKeepsScan(s, k, life);
    case BeginScan => BeginKeepsInv(s, life);
    case Tick(_) => TimeKeepsInv(s, step, life);
    case Expire(_) => TimeKeepsInv(s, step, life);
    case Announce(_) =>
    case _ => ListKeepsInv(s, step, life);
  }

  lemma {:induction false} RunKeepsInv(s: State, steps: seq<Step>, life: Time)
    requires life > 0 && Inv(s, life) && AllEnabled(s, steps, life)
    ensures Inv(Run(s, steps, life), life)
    decreases |steps|
  {
    if steps != [] {
      StepKeepsInv(s, steps[0], life);
      RunKeepsInv(Next(s, steps[0], life), steps[1..], life);
    }
  }

  // ----- The two promises -----

  /** A token the deployment can hold: it lives no longer than the store keeps records, and
      was not minted for a session already ended. */
  ghost predicate Legit(t: Token, history: set<Event>, life: Time) {
    && t.expires <= t.issued + life
    && forall e :: e in history && e.kind == Session && Covers(e, t) ==> t.issued <= e.at
  }

  ghost predicate Covered(history: set<Event>, t: Token) {
    exists e :: e in history && Covers(e, t)
  }

  lemma SpentCoversNothingLive(e: Event, t: Token, h: set<Event>, now: Time, life: Time)
    requires Legit(t, h, life) && e in h && Covers(e, t) && Spent(e, now, life)
    ensures t.expires <= now
  {
  }

  /** A refusal always traces back to an event. */
  lemma RefusalHasCause(l: Lists, h: set<Event>, t: Token)
    requires From(l, h) && Refuses(l, t)
    ensures Covered(h, t)
  {
    if t.session != "" && t.session in l.sessions {
      assert Covers(Event(Session, t.session, l.sessions[t.session]), t);
    } else if Cut(l.users, t.user, t.issued) {
      assert Covers(Event(User, t.user, l.users[t.user]), t);
    } else {
      assert Covers(Event(Company, t.company, l.companies[t.company]), t);
    }
  }

  /** A covering event of the scanned history was fetched, or something that stands for it was. */
  lemma CoveredIsFetched(s: State, e: Event, t: Token, life: Time)
    requires life > 0 && Inv(s, life) && s.scan.Some? && s.scan.value.pending == {}
    requires Legit(t, s.history, life) && s.now < t.expires && e in s.scan.value.base && Covers(e, t)
    ensures exists g :: g in s.scan.value.got && Covers(g, t)
  {
    if Spent(e, s.now, life) {
      SpentCoversNothingLive(e, t, s.history, s.now, life);
    } else {
      assert Collected(e, s.scan.value);
      var g :| g in s.scan.value.got && StandsFor(g, e);
      assert Covers(g, t);
    }
  }

  /** What a finished reread refuses: everything live that was covered when it began, and nothing never published. */
  lemma ScanIsComplete(s: State, t: Token, life: Time)
    requires life > 0 && Inv(s, life) && Enabled(s, EndScan, life)
    requires Legit(t, s.history, life) && s.now < t.expires
    ensures Covered(s.scan.value.base, t) ==> Refuses(Next(s, EndScan, life).view.lists, t)
    ensures Refuses(Next(s, EndScan, life).view.lists, t) ==> Covered(s.history, t)
  {
    var c := s.scan.value;
    ReplayIsExact(c.got, t);
    if Covered(c.base, t) {
      var e :| e in c.base && Covers(e, t);
      CoveredIsFetched(s, e, t, life);
    }
  }

  /**
   * Resync is exact in every reachable state: the list a reread leaves refuses every live token
   * that an event published before it began covers, and none that no event ever covered, however
   * many announcements were lost and records overwritten or expired before. With nothing
   * published meanwhile the two are one.
   */
  lemma ResyncIsExact(start: Time, steps: seq<Step>, t: Token, life: Time)
    requires life > 0 && AllEnabled(Start(start), steps, life)
    requires var s := Run(Start(start), steps, life);
             Enabled(s, EndScan, life) && Legit(t, s.history, life) && s.now < t.expires
    ensures var s := Run(Start(start), steps, life);
            var refused := Refuses(Next(s, EndScan, life).view.lists, t);
      && (Covered(s.scan.value.base, t) ==> refused)
      && (refused ==> Covered(s.history, t))
      && (s.scan.value.base == s.history ==> (refused <==> Covered(s.history, t)))
  {
    RunKeepsInv(Start(start), steps, life);
    ScanIsComplete(Run(Start(start), steps, life), t, life);
  }

  lemma StepNeverUnrevokes(s: State, step: Step, t: Token, life: Time)
    requires life > 0 && Inv(s, life) && Enabled(s, step, life) && !step.Restart?
    requires Refuses(s.view.lists, t) && Legit(t, s.history, life) && s.now < t.expires
    ensures Refuses(Next(s, step, life).view.lists, t)
  {
    match step
    case Deliver(e) => ApplyAddsExactly(s.view.lists, e, t);
    case PruneNow => PruneIsInvisible(s.view.lists, s.now - life, t);
    case EndScan =>
      RefusalHasCause(s.view.lists, s.scan.value.base, t);
      ScanIsComplete(s, t, life);
    case _ =>
  }

  /** History and time only grow. */
  lemma {:induction false} RunGrows(s: State, steps: seq<Step>, life: Time)
    ensures s.history <= Run(s, steps, life).history
    ensures s.now <= Run(s, steps, life).now
    decreases |steps|
  {
    if steps != [] { RunGrows(Next(s, steps[0], life), steps[1..], life); }
  }

  lemma {:induction false} RefusalPersists(s: State, steps: seq<Step>, t: Token, life: Time)
    requires life > 0 && Inv(s, life) && AllEnabled(s, steps, life) && Restart !in steps
    requires Refuses(s.view.lists, t)
    requires var end := Run(s, steps, life); Legit(t, end.history, life) && end.now < t.expires
    ensures Refuses(Run(s, steps, life).view.lists, t)
    decreases |steps|
  {
    if steps != [] {
      var next := Next(s, steps[0], life);
      assert forall x :: x in steps[1..] ==> x in steps;
      assert steps[0] in steps;
      RunGrows(s, steps, life);
      StepKeepsInv(s, steps[0], life);
      StepNeverUnrevokes(s, steps[0], t, life);
      RefusalPersists(next, steps[1..], t, life);
    }
  }

  /**
   * Nothing un-revokes a live token: a token refused at any point of any run is refused at
   * every later point short of a restart, until it expires on its own.
   */
  lemma NeverUnrevoked(start: Time, before: seq<Step>, after: seq<Step>, t: Token, life: Time)
    requires life > 0 && AllEnabled(Start(start), before, life)
    requires var s := Run(Start(start), before, life);
             AllEnabled(s, after, life) && Restart !in after && Refuses(s.view.lists, t)
    requires var end := Run(Run(Start(start), before, life), after, life);
             Legit(t, end.history, life) && end.now < t.expires
    ensures Refuses(Run(Run(Start(start), before, life), after, life).view.lists, t)
  {
    RunKeepsInv(Start(start), before, life);
    RefusalPersists(Run(Start(start), before, life), after, t, life);
  }

  // ----- Where the promises stop -----

  /** Every live token that history covers is covered by some record a reread would find. */
  ghost predicate StoreKnows(s: State, life: Time) {
    forall t :: Legit(t, s.history, life) && s.now < t.expires && Covered(s.history, t) ==>
      Covered(set k | k in s.durable :: s.durable[k].event, t)
  }

  lemma RecordedKnows(s: State, life: Time)
    requires life > 0 && Recorded(s, life)
    ensures StoreKnows(s, life)
  {
    forall t | Legit(t, s.history, life) && s.now < t.expires && Covered(s.history, t)
      ensures Covered(set k | k in s.durable :: s.durable[k].event, t)
    {
      var e :| e in s.history && Covers(e, t);
      if Spent(e, s.now, life) {
        SpentCoversNothingLive(e, t, s.history, s.now, life);
      } else {
        assert Covers(s.durable[StoreKey(e)].event, t);
      }
    }
  }

  /** A token of one name, issued at this instant and living as long as tokens do. */
  function TokenOf(e: Event, issued: Time, life: Time): Token {
    match e.kind
    case Session => Token(e.id, "", "", issued, issued + life)
    case User => Token("", e.id, "", issued, issued + life)
    case Company => Token("", "", e.id, issued, issued + life)
  }

  lemma OnlyItsNameCovers(e: Event, g: Event, issued: Time, life: Time)
    ensures Covers(g, TokenOf(e, issued, life)) <==> e.id != "" && SameName(g, e) && (e.kind == Session || issued < g.at)
  {
  }

  /**
   * A publication keeps the store complete exactly when it is orderly. The write overwrites
   * whatever the name held, so an older cutoff sent later un-revokes tokens at the next reread.
   */
  lemma PublishIsSafeWhenOrderly(s: State, e: Event, life: Time)
    requires life > 0 && Recorded(s, life) && Possible(s, Publish(e))
    ensures StoreKnows(Next(s, Publish(e), life), life) <==> Orderly(s, e, life)
  {
    StoreKeysDistinct();
    var s' := Next(s, Publish(e), life);
    if Orderly(s, e, life) {
      PublishKeepsRecorded(s, e, life);
      RecordedKnows(s', life);
    } else {
      var f :| f in s.history && SameName(e, f) && f.at > e.at && !Spent(f, s.now, life);
      var t := TokenOf(f, f.at - 1, life);
      OnlyItsNameCovers(f, f, f.at - 1, life);
      assert Covered(s'.history, t) && Legit(t, s'.history, life);
      forall k | k in s'.durable ensures !Covers(s'.durable[k].event, t) {
        OnlyItsNameCovers(f, s'.durable[k].event, f.at - 1, life);
        if SameName(s'.durable[k].event, f) { assert k == StoreKey(e); }
      }
    }
  }

  /** The publication, once its record's time to live has run out. */
  function Outlived(s: State, e: Event, life: nat): State {
    Next(Next(Next(s, Publish(e), life), Tick(life), life), Expire(StoreKey(e)), life)
  }

  /** The session already had an end. */
  ghost predicate EndedBefore(s: State, e: Event) {
    e.kind == Session && exists f :: f in s.history && SameName(f, e)
  }

  lemma TimelyLasts(s: State, e: Event, life: nat)
    requires life > 0 && DurableInv(s, life) && (Timely(s, e, life) || EndedBefore(s, e))
    ensures StoreKnows(Outlived(s, e, life), life)
  {
    var end := Outlived(s, e, life);
    forall t | Legit(t, end.history, life) && Covered(end.history, t) ensures t.expires <= end.now {
      var g :| g in end.history && Covers(g, t);
      if g in s.history || Timely(s, e, life) {
        SpentCoversNothingLive(g, t, end.history, end.now, life);
      } else {
        var f :| f in s.history && SameName(f, e);
        SpentCoversNothingLive(f, t, end.history, end.now, life);
      }
    }
  }

  lemma UntimelyIsForgotten(s: State, e: Event, life: nat)
    requires life > 0 && DurableInv(s, life) && e.id != "" && !Timely(s, e, life) && !EndedBefore(s, e)
    ensures !StoreKnows(Outlived(s, e, life), life)
  {
    StoreKeysDistinct();
    var end := Outlived(s, e, life);
    var issued := if e.kind == Session then e.at else e.at - 1;
    var t := TokenOf(e, issued, life);
    OnlyItsNameCovers(e, e, issued, life);
    assert Covered(end.history, t) && Legit(t, end.history, life) && end.now < t.expires;
    forall k | k in end.durable ensures !Covers(end.durable[k].event, t) {
      OnlyItsNameCovers(e, end.durable[k].event, issued, life);
    }
  }

  /**
   * A publication stays known until what it covers has expired exactly when it is
   * timely, or ends a session that had ended before. Nothing checks the instant given: a cutoff
   * in the future outlives its record, and the tokens issued meanwhile are let through again.
   */
  lemma PublishLastsWhenTimely(s: State, e: Event, life: nat)
    requires life > 0 && DurableInv(s, life) && Possible(s, Publish(e))
    ensures StoreKnows(Outlived(s, e, life), life) <==> Timely(s, e, life) || EndedBefore(s, e)
  {
    if Timely(s, e, life) || EndedBefore(s, e) { TimelyLasts(s, e, life); } else { UntimelyIsForgotten(s, e, life); }
  }

  // ----- Reads that fail -----

  function FailSteps(keys: seq<string>): seq<Step> {
    seq(|keys|, i requires 0 <= i < |keys| => ReadFails(keys[i]))
  }

  lemma {:induction false} FailingReads(s: State, keys: seq<string>, life: Time)
    requires s.scan.Some?
    ensures Run(s, FailSteps(keys), life) ==
            s.(scan := Some(s.scan.value.(pending := s.scan.value.pending - set k | k in keys)))
    decreases |keys|
  {
    var c := s.scan.value;
    if keys == [] {
      assert c.pending - (set k | k in keys) == c.pending;
    } else {
      var s' := Next(s, ReadFails(keys[0]), life);
      FailingReads(s', keys[1..], life);
      assert FailSteps(keys)[1..] == FailSteps(keys[1..]) && FailSteps(keys)[0] == ReadFails(keys[0]);
      assert keys == [keys[0]] + keys[1..];
      assert s'.scan.value.pending - (set k | k in keys[1..]) == c.pending - (set k | k in keys);
    }
  }

  /** Every live token that these events cover is refused. */
  ghost predicate RefusesAll(s: State, events: set<Event>, life: Time) {
    forall t :: Legit(t, s.history, life) && s.now < t.expires && Covered(events, t) ==> Refuses(s.view.lists, t)
  }

  /** An event the reread can do without: something fetched stands for it, or nothing live is covered by its name. */
  ghost predicate Dispensable(s: State, e: Event, life: Time)
    requires s.scan.Some?
  {
    || (exists g :: g in s.scan.value.got && StandsFor(g, e))
    || (if e.kind == Session then exists f :: f in s.history && SameName(f, e) && Spent(f, s.now, life)
        else Spent(e, s.now, life))
  }

  lemma {:induction false} EarliestEnd(h: set<Event>, e: Event) returns (first: Event)
    requires e in h
    ensures first in h && SameName(first, e) && forall f :: f in h && SameName(f, e) ==> first.at <= f.at
    decreases h
  {
    first := e;
    if f :| f in h && SameName(f, e) && f.at < e.at {
      first := EarliestEnd(h - {e}, f);
    }
  }

  /** An indispensable event that was skipped covers a live token that nothing fetched covers. */
  lemma MissedToken(s: State, e: Event, base: set<Event>, life: Time) returns (t: Token)
    requires life > 0 && s.scan.Some? && e in base && e in s.history && e.id != "" && !Dispensable(s, e, life)
    ensures Legit(t, s.history, life) && s.now < t.expires && Covered(base, t)
    ensures forall g :: g in s.scan.value.got ==> !Covers(g, t)
  {
    var first := e;
    if e.kind == Session { first := EarliestEnd(s.history, e); }
    var issued := if e.kind == Session then first.at else e.at - 1;
    t := TokenOf(e, issued, life);
    OnlyItsNameCovers(e, e, issued, life);
    assert Covers(e, t);
    forall g | g in s.history && g.kind == Session && Covers(g, t) ensures t.issued <= g.at {
      OnlyItsNameCovers(e, g, issued, life);
    }
    forall g | g in s.scan.value.got ensures !Covers(g, t) {
      OnlyItsNameCovers(e, g, issued, life);
      if Covers(g, t) { assert StandsFor(g, e); }
    }
  }

  /** A live token covered by a dispensable event is covered by something fetched. */
  lemma DispensableIsEnough(s: State, e: Event, t: Token, life: Time)
    requires life > 0 && s.scan.Some? && e in s.history && Covers(e, t)
    requires Legit(t, s.history, life) && s.now < t.expires && Dispensable(s, e, life)
    ensures exists g :: g in s.scan.value.got && Covers(g, t)
  {
    if g :| g in s.scan.value.got && StandsFor(g, e) {
      assert Covers(g, t);
    } else if e.kind == Session {
      var f :| f in s.history && SameName(f, e) && Spent(f, s.now, life);
      SpentCoversNothingLive(f, t, s.history, s.now, life);
    } else {
      SpentCoversNothingLive(e, t, s.history, s.now, life);
    }
  }

  /** An event of the scanned history is dispensable unless its key is still to be read. */
  lemma FetchedIsDispensable(s: State, e: Event, t: Token, life: Time)
    requires life > 0 && Inv(s, life) && s.scan.Some? && e in s.scan.value.base && StoreKey(e) !in s.scan.value.pending
    requires Covers(e, t) && Legit(t, s.history, life) && s.now < t.expires
    ensures exists g :: g in s.scan.value.got && Covers(g, t)
  {
    if Spent(e, s.now, life) {
      SpentCoversNothingLive(e, t, s.history, s.now, life);
    } else {
      assert Collected(e, s.scan.value);
      var g :| g in s.scan.value.got && StandsFor(g, e);
    }
  }

  /** The events a reread is about to miss can all be done without. */
  ghost predicate AllDispensable(s: State, life: Time)
    requires s.scan.Some?
  {
    forall e :: e in s.scan.value.base && StoreKey(e) in s.scan.value.pending ==> Dispensable(s, e, life)
  }

  /**
   * Reads that fail are skipped like absent keys, and the list that results does not call itself
   * degraded. It refuses every live token revoked before the reread began if and only if each
   * event of a skipped key was dispensable, whichever and however many they are, and whatever was
   * published meanwhile.
   */
  lemma SkippedReadsDecide(s: State, keys: seq<string>, life: Time)
    requires life > 0 && Inv(s, life) && s.scan.Some?
    requires forall k :: k in s.scan.value.pending ==> k in keys
    ensures var end := Next(Run(s, FailSteps(keys), life), EndScan, life);
            !end.view.degraded && (RefusesAll(end, s.scan.value.base, life) <==> AllDispensable(s, life))
  {
    FailingReads(s, keys, life);
    var c := s.scan.value;
    var end := Next(Run(s, FailSteps(keys), life), EndScan, life);
    assert end == s.(view := View(Replayed(c.got), false), scan := None);
    if e :| e in c.base && StoreKey(e) in c.pending && !Dispensable(s, e, life) {
      var t := MissedToken(s, e, c.base, life);
      ReplayIsExact(c.got, t);
      assert !Refuses(end.view.lists, t);
    } else {
      forall t | Legit(t, s.history, life) && s.now < t.expires && Covered(c.base, t) ensures Refuses(end.view.lists, t) {
        var e :| e in c.base && Covers(e, t);
        if StoreKey(e) in c.pending { DispensableIsEnough(s, e, t, life); } else { FetchedIsDispensable(s, e, t, life); }
        ReplayIsExact(c.got, t);
      }
    }
  }

  // ----- Runs that go wrong -----

  ghost predicate AllPossible(s: State, steps: seq<Step>, life: Time)
    decreases |steps|
  {
    steps == [] || (Possible(s, steps[0]) && AllPossible(Next(s, steps[0], life), steps[1..], life))
  }

  /** The steps let a token through that was refused, still covered and live. */
  ghost predicate Unrevokes(s: State, steps: seq<Step>, t: Token, life: Time) {
    var end := Run(s, steps, life);
    && AllPossible(s, steps, life) && Restart !in steps
    && Refuses(s.view.lists, t) && !Refuses(end.view.lists, t) && !end.view.degraded
    && Legit(t, end.history, life) && Covered(end.history, t) && end.now < t.expires
  }

  lemma ThreeMore(s: State, a: Step, b: Step, c: Step, rest: seq<Step>, life: Time)
    ensures Run(s, [a, b, c] + rest, life) == Run(Next(Next(Next(s, a, life), b, life), c, life), rest, life)
    ensures AllEnabled(s, [a, b, c] + rest, life) <==>
            && Enabled(s, a, life) && Enabled(Next(s, a, life), b, life) && Enabled(Next(Next(s, a, life), b, life), c, life)
            && AllEnabled(Next(Next(Next(s, a, life), b, life), c, life), rest, life)
    ensures AllPossible(s, [a, b, c] + rest, life) <==>
            && Possible(s, a) && Possible(Next(s, a, life), b) && Possible(Next(Next(s, a, life), b, life), c)
            && AllPossible(Next(Next(Next(s, a, life), b, life), c, life), rest, life)
  {
    var steps, s1 := [a, b, c] + rest, Next(s, a, life);
    var s2 := Next(s1, b, life);
    assert steps[1..] == [b, c] + rest && ([b, c] + rest)[1..] == [c] + rest && ([c] + rest)[1..] == rest;
    assert Run(s1, [b, c] + rest, life) == Run(s2, [c] + rest, life);
    assert AllEnabled(s1, [b, c] + rest, life) <==> Enabled(s1, b, life) && AllEnabled(s2, [c] + rest, life);
    assert AllPossible(s1, [b, c] + rest, life) <==> Possible(s1, b) && AllPossible(s2, [c] + rest, life);
  }

  /** Published, announced and delivered: the record is there, and the list knows. */
  function Told(e: Event, now: Time, life: Time): State {
    var v := View(Applied(EMPTY, e), false);
    State(now, map[StoreKey(e) := Record(e, now + life)], {e}, {e}, v, None)
  }

  lemma TellingReaches(e: Event, now: Time, life: Time)
    requires life > 0 && e.id != ""
    ensures Run(Start(now), [Publish(e), Announce(e), Deliver(e)], life) == Told(e, now, life)
    ensures Timely(Start(now), e, life) ==> AllEnabled(Start(now), [Publish(e), Announce(e), Deliver(e)], life)
    ensures AllPossible(Start(now), [Publish(e), Announce(e), Deliver(e)], life)
  {
    ThreeMore(Start(now), Publish(e), Announce(e), Deliver(e), [], life);
    assert [Publish(e), Announce(e), Deliver(e)] + [] == [Publish(e), Announce(e), Deliver(e)];
  }

  /** In a state an enabled run reaches, one failed read lets a revoked live token through. */
  lemma SwallowedReadUnrevokes()
    ensures exists before, after, t, life: nat ::
      && life > 0 && AllEnabled(Start(10), before, life) && Unrevokes(Run(Start(10), before, life), after, t, life)
  {
    var e, t, life := Event(User, "u", 5), Token("", "u", "", 4, 104), 100;
    var before, after := [Publish(e), Announce(e), Deliver(e)], [BeginScan, ReadFails(StoreKey(e)), EndScan];
    var s := Told(e, 10, life);
    TellingReaches(e, 10, life);
    FailedReadLetsThrough(s, e, life);
    ThreeMore(s, BeginScan, ReadFails(StoreKey(e)), EndScan, [], life);
    assert after + [] == after;
    assert Unrevokes(s, after, t, life);
  }

  lemma FailedReadLetsThrough(s: State, e: Event, life: Time)
    requires s.scan.None? && s.durable.Keys == {StoreKey(e)}
    ensures var s1 := Next(s, BeginScan, life);
            var s2 := Next(s1, ReadFails(StoreKey(e)), life);
            && Possible(s2, EndScan)
            && Next(s2, EndScan, life) == s.(view := View(EMPTY, false))
  {
    assert Replayed([]) == EMPTY;
    assert {StoreKey(e)} - {StoreKey(e)} == {};
  }

  /** Told of e, the store is told of f: the record is f's, and a reread finds nothing else. */
  lemma OverwrittenIsForgotten(s: State, e: Event, f: Event, life: Time)
    requires s.scan.None? && s.durable.Keys == {StoreKey(e)} && StoreKey(f) == StoreKey(e) && f.id != ""
    ensures var s1 := Next(s, Publish(f), life);
            var s2 := Next(s1, BeginScan, life);
            var s3 := Next(s2, ReadKey(StoreKey(f)), life);
            && Possible(s1, BeginScan) && Possible(s2, ReadKey(StoreKey(f))) && Possible(s3, EndScan)
            && Next(s3, EndScan, life) ==
               s.(durable := s.durable[StoreKey(f) := Record(f, s.now + life)], history := s.history + {f}, view := View(Applied(EMPTY, f), false))
  {
    assert [] + [f] == [f] && [f][..0] == [];
    assert Replayed([f]) == Applied(EMPTY, f);
    assert {StoreKey(e)} + {StoreKey(f)} - {StoreKey(f)} == {};
  }

  /** A cutoff sent after a later one takes its place in the store, and the tokens between the two are let through. */
  lemma OlderCutoffUnrevokes()
    ensures exists before, after, t, life: nat ::
      && life > 0 && AllEnabled(Start(10), before, life) && Unrevokes(Run(Start(10), before, life), after, t, life)
  {
    var e, f, t, life := Event(User, "u", 8), Event(User, "u", 5), Token("", "u", "", 6, 106), 100;
    var before := [Publish(e), Announce(e), Deliver(e)];
    var after := [Publish(f), BeginScan, ReadKey(StoreKey(f)), EndScan];
    var s := Told(e, 10, life);
    TellingReaches(e, 10, life);
    OverwrittenIsForgotten(s, e, f, life);
    assert after == [Publish(f), BeginScan, ReadKey(StoreKey(f))] + [EndScan];
    ThreeMore(s, Publish(f), BeginScan, ReadKey(StoreKey(f)), [EndScan], life);
    assert e in s.history && Covers(e, t);
    assert Unrevokes(s, after, t, life);
  }

  lemma ForgottenWithItsRecord(s: State, e: Event, waited: nat, life: Time)
    requires s.scan.None? && s.durable.Keys == {StoreKey(e)} && s.durable[StoreKey(e)].expires <= s.now + waited
    ensures var s1 := Next(s, Tick(waited), life);
            var s2 := Next(s1, Expire(StoreKey(e)), life);
            var s3 := Next(s2, BeginScan, life);
            && Possible(s1, Expire(StoreKey(e))) && Possible(s2, BeginScan) && Possible(s3, EndScan)
            && Next(s3, EndScan, life) == s.(now := s.now + waited, durable := map[], view := View(EMPTY, false))
  {
    assert Replayed([]) == EMPTY;
    var s2 := Next(Next(s, Tick(waited), life), Expire(StoreKey(e)), life);
    assert s2.durable.Keys == {};
    assert s2.durable == map[];
  }

  /** A cutoff given in the future is forgotten with its record, while tokens it covers live on. */
  lemma FutureCutoffUnrevokes()
    ensures exists before, after, t, life: nat ::
      && life > 0 && AllPossible(Start(10), before, life) && Unrevokes(Run(Start(10), before, life), after, t, life)
  {
    var e, t, life := Event(User, "u", 200), Token("", "u", "", 150, 250), 100;
    var before, after := [Publish(e), Announce(e), Deliver(e)], [Tick(150), Expire(StoreKey(e)), BeginScan, EndScan];
    var s := Told(e, 10, life);
    TellingReaches(e, 10, life);
    ForgottenWithItsRecord(s, e, 150, life);
    assert after == [Tick(150), Expire(StoreKey(e)), BeginScan] + [EndScan];
    ThreeMore(s, Tick(150), Expire(StoreKey(e)), BeginScan, [EndScan], life);
    assert Unrevokes(s, after, t, life);
  }
}
