/** The in-memory revocation list every service answers from (revocation.go). */
module RevocationList {
  type Time = int

  datatype Kind = Session | User | Company

  datatype Event = Event(kind: Kind, id: string, at: Time)

  /** What a request presents, with the instant the token expires on its own. */
  datatype Token = Token(session: string, user: string, company: string, issued: Time, expires: Time)

  /** The three maps: ended sessions, and cutoffs for users and companies. */
  datatype Lists = Lists(sessions: map<string, Time>, users: map<string, Time>, companies: map<string, Time>)

  const EMPTY := Lists(map[], map[], map[])

  /** The list as the event loop sees it. */
  datatype View = View(lists: Lists, degraded: bool)

  predicate Cut(cutoffs: map<string, Time>, id: string, issued: Time) {
    id != "" && id in cutoffs && issued < cutoffs[id]
  }

  predicate Refuses(l: Lists, t: Token) {
    || (t.session != "" && t.session in l.sessions)
    || Cut(l.users, t.user, t.issued)
    || Cut(l.companies, t.company, t.issued)
  }

  function Later(cutoffs: map<string, Time>, id: string, at: Time): map<string, Time> {
    if id !in cutoffs || cutoffs[id] < at then cutoffs[id := at] else cutoffs
  }

  function Applied(l: Lists, e: Event): Lists {
    match e.kind
    case Session => l.(sessions := l.sessions[e.id := e.at])
    case User => l.(users := Later(l.users, e.id, e.at))
    case Company => l.(companies := Later(l.companies, e.id, e.at))
  }

  function Replayed(events: seq<Event>): Lists {
    if events == [] then EMPTY
    else Applied(Replayed(events[..|events| - 1]), events[|events| - 1])
  }

  function Kept(entries: map<string, Time>, cutoff: Time): map<string, Time> {
    map id | id in entries && cutoff <= entries[id] :: entries[id]
  }

  function Pruned(l: Lists, cutoff: Time): Lists {
    Lists(Kept(l.sessions, cutoff), Kept(l.users, cutoff), Kept(l.companies, cutoff))
  }

  // ----- What an event means, independently of any list -----

  /** The tokens an announcement ends. */
  predicate Covers(e: Event, t: Token) {
    match e.kind
    case Session => t.session != "" && e.id == t.session
    case User => t.user != "" && e.id == t.user && t.issued < e.at
    case Company => t.company != "" && e.id == t.company && t.issued < e.at
  }

  /** Applying one event refuses exactly the tokens refused before and the tokens it covers. */
  lemma ApplyAddsExactly(l: Lists, e: Event, t: Token)
    ensures Refuses(Applied(l, e), t) <==> Refuses(l, t) || Covers(e, t)
  {
  }

  /** A replayed list refuses a token exactly when one of the events covers it. */
  lemma {:induction false} ReplayIsExact(events: seq<Event>, t: Token)
    ensures Refuses(Replayed(events), t) <==> exists e :: e in events && Covers(e, t)
  {
    if events != [] {
      var head, last := events[..|events| - 1], events[|events| - 1];
      ReplayIsExact(head, t);
      ApplyAddsExactly(Replayed(head), last, t);
      assert forall e :: e in events <==> e in head || e == last;
    }
  }

  /** m holds, for every id of this kind, the latest cutoff among the events and nothing else. */
  ghost predicate LatestCutoffs(m: map<string, Time>, kind: Kind, events: seq<Event>) {
    && (forall e :: e in events && e.kind == kind ==> e.id in m && e.at <= m[e.id])
    && (forall id :: id in m ==> Event(kind, id, m[id]) in events)
  }

  lemma LaterKeepsLatest(m: map<string, Time>, kind: Kind, events: seq<Event>, e: Event)
    requires LatestCutoffs(m, kind, events)
    ensures LatestCutoffs(if e.kind == kind then Later(m, e.id, e.at) else m, kind, events + [e])
  {
    assert forall x :: x in events + [e] <==> x in events || x == e;
  }

  lemma {:induction false} ReplayKeepsLatest(events: seq<Event>)
    ensures LatestCutoffs(Replayed(events).users, User, events)
    ensures LatestCutoffs(Replayed(events).companies, Company, events)
  {
    if events != [] {
      var head, last := events[..|events| - 1], events[|events| - 1];
      ReplayKeepsLatest(head);
      LaterKeepsLatest(Replayed(head).users, User, head, last);
      LaterKeepsLatest(Replayed(head).companies, Company, head, last);
      assert events == head + [last];
    }
  }

  lemma LatestIsUnique(m: map<string, Time>, n: map<string, Time>, kind: Kind, xs: seq<Event>, ys: seq<Event>)
    requires forall e :: e in xs <==> e in ys
    requires LatestCutoffs(m, kind, xs) && LatestCutoffs(n, kind, ys)
    ensures m == n
  {
    forall id | id in m ensures id in n && n[id] >= m[id] {
      assert Event(kind, id, m[id]) in ys;
    }
    forall id | id in n ensures id in m && m[id] >= n[id] {
      assert Event(kind, id, n[id]) in xs;
    }
  }

  /** Replay is order-free and duplicate-free for cutoffs: only the set of events matters. */
  lemma ReplayIsOrderFree(xs: seq<Event>, ys: seq<Event>)
    requires forall e :: e in xs <==> e in ys
    ensures Replayed(xs).users == Replayed(ys).users
    ensures Replayed(xs).companies == Replayed(ys).companies
    ensures forall t :: Refuses(Replayed(xs), t) <==> Refuses(Replayed(ys), t)
  {
    ReplayKeepsLatest(xs);
    ReplayKeepsLatest(ys);
    LatestIsUnique(Replayed(xs).users, Replayed(ys).users, User, xs, ys);
    LatestIsUnique(Replayed(xs).companies, Replayed(ys).companies, Company, xs, ys);
    forall t ensures Refuses(Replayed(xs), t) <==> Refuses(Replayed(ys), t) {
      ReplayIsExact(xs, t);
      ReplayIsExact(ys, t);
    }
  }

  /** Ended sessions are not order-free: the stored instant is the last one replayed. */
  lemma SessionReplayDependsOnOrder()
    ensures exists xs: seq<Event>, ys: seq<Event> ::
      multiset(xs) == multiset(ys) && Replayed(xs).sessions != Replayed(ys).sessions
  {
    var a, b := Event(Session, "s", 1), Event(Session, "s", 2);
    var xs, ys := [a, b], [b, a];
    assert xs[..1] == [a] && ys[..1] == [b];
    assert Replayed(xs) == Applied(Replayed([a]), b) && Replayed(ys) == Applied(Replayed([b]), a);
    assert Replayed(xs).sessions["s"] == 2 && Replayed(ys).sessions["s"] == 1;
    assert multiset(xs) == multiset(ys);
  }

  /**
   * Pruning is invisible exactly while it matters: for a token issued after the pruning
   * cutoff the answer changes if and only if the list knew it solely by a session end
   * recorded before the cutoff, that is, before the token itself was issued.
   */
  lemma PruneIsInvisible(l: Lists, cutoff: Time, t: Token)
    requires cutoff < t.issued
    ensures (Refuses(Pruned(l, cutoff), t) <==> Refuses(l, t)) <==>
            !(&& t.session != "" && t.session in l.sessions && l.sessions[t.session] < cutoff
              && !Cut(l.users, t.user, t.issued) && !Cut(l.companies, t.company, t.issued))
    ensures (t.session in l.sessions ==> t.issued <= l.sessions[t.session]) ==>
            (Refuses(Pruned(l, cutoff), t) <==> Refuses(l, t))
  {
  }

  // ----- The object the services hold -----

  class List {
    var sessions: map<string, Time>
    var users: map<string, Time>
    var companies: map<string, Time>
    var degraded: bool

    function Look(): View
      reads this
    {
      View(Lists(sessions, users, companies), degraded)
    }

    constructor ()
      ensures Look() == View(EMPTY, false)
    {
      sessions, users, companies, degraded := map[], map[], map[], false;
    }

    /** The answer to one request: refused exactly when some entry of the list covers the token. */
    method Revoked(t: Token) returns (refused: bool)
      ensures refused <==>
        || (t.session in sessions && Covers(Event(Session, t.session, sessions[t.session]), t))
        || (t.user in users && Covers(Event(User, t.user, users[t.user]), t))
        || (t.company in companies && Covers(Event(Company, t.company, companies[t.company]), t))
      ensures refused == Refuses(Look().lists, t)
    {
      if t.session != "" {
        if t.session in sessions { return true; }
      }
      if t.user != "" {
        if t.user in users && t.issued < users[t.user] { return true; }
      }
      if t.company != "" {
        if t.company in companies && t.issued < companies[t.company] { return true; }
      }
      return false;
    }

    method Apply(e: Event)
      modifies this
      ensures Look() == old(Look()).(lists := Applied(old(Look()).lists, e))
    {
      match e.kind
      case Session =>
        sessions := sessions[e.id := e.at];
      case User =>
        if e.id !in users || users[e.id] < e.at { users := users[e.id := e.at]; }
      case Company =>
        if e.id !in companies || companies[e.id] < e.at { companies := companies[e.id := e.at]; }
    }

    method Replace(events: seq<Event>)
      modifies this
      ensures Look() == View(Replayed(events), false)
    {
      var replacement := new List();
      for i := 0 to |events|
        invariant fresh(replacement)
        invariant replacement.Look().lists == Replayed(events[..i])
        invariant unchanged(this)
      {
        replacement.Apply(events[i]);
        assert events[..i + 1][..i] == events[..i];
      }
      assert events[..|events|] == events;
      sessions, users, companies := replacement.sessions, replacement.users, replacement.companies;
      degraded := false;
    }

    method Prune(maxTokenLife: Time, now: Time)
      modifies this
      ensures Look() == old(Look()).(lists := Pruned(old(Look()).lists, now - maxTokenLife))
    {
      var cutoff := now - maxTokenLife;
      sessions := Drop(sessions, cutoff);
      users := Drop(users, cutoff);
      companies := Drop(companies, cutoff);
    }

    /** The delete-while-ranging loop, once for each of the three maps. */
    static method Drop(entries: map<string, Time>, cutoff: Time) returns (kept: map<string, Time>)
      ensures kept == Kept(entries, cutoff)
    {
      kept := entries;
      var todo := entries.Keys;
      while todo != {}
        invariant todo <= entries.Keys
        invariant forall id :: id in kept <==> id in entries && (id in todo || cutoff <= entries[id])
        invariant forall id :: id in kept ==> kept[id] == entries[id]
        decreases |todo|
      {
        var id :| id in todo;
        todo := todo - {id};
        if entries[id] < cutoff { kept := kept - {id}; }
      }
    }

    method MarkDegraded()
      modifies this
      ensures Look() == old(Look()).(degraded := true)
    {
      degraded := true;
    }
  }
}
