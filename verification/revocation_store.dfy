/** The revocation store as the object the services hold (redis.go), and the subscriber's event loop. */
module RevocationStore {
  import opened Wrappers
  import opened RevocationList
  import opened RevocationProtocol

  // ----- The subscriber's event loop -----

  /** One reread: the durable set as it is then, the keys whose read succeeds, and what the key scan yields. */
  datatype Reread = Reread(durable: map<string, Record>, readable: set<string>, pages: seq<seq<string>>, scanUp: bool)

  /** What the loop's select can yield. */
  datatype Signal =
    | Message(payload: Option<Event>)
    | Closed(reread: Reread)
    | ResyncTick(reread: Reread)
    | PruneTick(now: Time)

  /** The readable entries among some keys, in the order they were fetched. */
  function Reads(durable: map<string, Record>, readable: set<string>, keys: seq<string>): seq<Event> {
    if keys == [] then []
    else
      var k := keys[|keys| - 1];
      var rest := Reads(durable, readable, keys[..|keys| - 1]);
      if k in durable && k in readable && durable[k].event.id != "" then rest + [durable[k].event] else rest
  }

  /** The pages of a key scan, one after another. */
  function Pages(pages: seq<seq<string>>): seq<string> {
    if pages == [] then [] else Pages(pages[..|pages| - 1]) + pages[|pages| - 1]
  }

  /** What a reread yields: nothing when the scan fails. */
  function Outcome(r: Reread): Option<seq<Event>> {
    if r.scanUp then Some(Reads(r.durable, r.readable, Pages(r.pages))) else None
  }

  function Resynced(v: View, read: Option<seq<Event>>): View {
    if read.None? then v.(degraded := true) else View(Replayed(read.value), false)
  }

  function OnSignal(v: View, signal: Signal, life: Time): View {
    match signal
    case Message(None) => v
    case Message(Some(e)) => v.(lists := Applied(v.lists, e))
    case Closed(reread) => Resynced(v.(degraded := true), Outcome(reread))
    case ResyncTick(reread) => Resynced(v, Outcome(reread))
    case PruneTick(now) => v.(lists := Pruned(v.lists, now - life))
  }

  function Watched(v: View, signals: seq<Signal>, life: Time): View {
    if signals == [] then v
    else OnSignal(Watched(v, signals[..|signals| - 1], life), signals[|signals| - 1], life)
  }

  /** Two hours in nanoseconds, the fallback lifetime. */
  const TWO_HOURS: Time := 7_200_000_000_000

  lemma {:induction false} ReadsFindsExactly(durable: map<string, Record>, readable: set<string>, keys: seq<string>)
    ensures forall e :: e in Reads(durable, readable, keys) <==>
      exists k :: k in keys && k in durable && k in readable && durable[k].event == e && e.id != ""
  {
    if keys != [] {
      var head, last := keys[..|keys| - 1], keys[|keys| - 1];
      ReadsFindsExactly(durable, readable, head);
      assert forall k :: k in keys <==> k in head || k == last;
    }
  }

  /** A reread that reaches every key leaves a list that refuses exactly what the store's records cover. */
  lemma FullReadRefuses(durable: map<string, Record>, keys: seq<string>, t: Token)
    requires forall k :: k in durable ==> k in keys
    ensures Refuses(Replayed(Reads(durable, durable.Keys, keys)), t)
            <==> exists k :: k in durable && durable[k].event.id != "" && Covers(durable[k].event, t)
  {
    ReplayIsExact(Reads(durable, durable.Keys, keys), t);
    ReadsFindsExactly(durable, durable.Keys, keys);
  }

  // ----- What each signal is for -----

  /** The reread reaches this record: some page of the scan names its key, and the key is read. */
  ghost predicate Reached(r: Reread, k: string) {
    && k in r.durable && k in r.readable && r.durable[k].event.id != ""
    && exists i, j :: 0 <= i < |r.pages| && 0 <= j < |r.pages[i]| && r.pages[i][j] == k
  }

  /** A reread that fails keeps the lists and says so; one that does not leaves a list of what it reached, and is not degraded. */
  ghost predicate RereadHeeded(v: View, r: Reread, v': View) {
    if !r.scanUp then v'.lists == v.lists && v'.degraded
    else !v'.degraded && forall t :: Refuses(v'.lists, t) <==> exists k :: Reached(r, k) && Covers(r.durable[k].event, t)
  }

  /** What is older than the cutoff is gone, and the rest stays. */
  ghost predicate OldAreGone(m: map<string, Time>, m': map<string, Time>, cutoff: Time) {
    forall id :: (id in m' <==> id in m && cutoff <= m[id]) && (id in m' ==> m'[id] == m[id])
  }

  /** What hearing a signal does to the list. */
  ghost predicate Heeded(v: View, signal: Signal, life: Time, v': View) {
    match signal
    case Message(None) => v' == v
    case Message(Some(e)) =>
      v'.degraded == v.degraded && forall t :: Refuses(v'.lists, t) <==> Refuses(v.lists, t) || Covers(e, t)
    case Closed(r) => RereadHeeded(v, r, v')
    case ResyncTick(r) => RereadHeeded(v, r, v')
    case PruneTick(now) =>
      && v'.degraded == v.degraded
      && OldAreGone(v.lists.sessions, v'.lists.sessions, now - life)
      && OldAreGone(v.lists.users, v'.lists.users, now - life)
      && OldAreGone(v.lists.companies, v'.lists.companies, now - life)
  }

  /** Every page counts. */
  lemma {:induction false} PagesExactly(pages: seq<seq<string>>, k: string)
    ensures k in Pages(pages) <==> exists i, j :: 0 <= i < |pages| && 0 <= j < |pages[i]| && pages[i][j] == k
  {
    if pages != [] {
      var head, last := pages[..|pages| - 1], |pages| - 1;
      PagesExactly(head, k);
      if k in Pages(pages) {
        if k in Pages(head) {
          var i, j :| 0 <= i < |head| && 0 <= j < |head[i]| && head[i][j] == k;
          assert pages[i][j] == k;
        } else {
          var j :| 0 <= j < |pages[last]| && pages[last][j] == k;
        }
      }
      if i, j :| 0 <= i < |pages| && 0 <= j < |pages[i]| && pages[i][j] == k {
        if i < last { assert head[i][j] == k; } else { assert k in pages[last]; }
      }
    }
  }

  lemma RereadIsHeeded(v: View, r: Reread)
    ensures RereadHeeded(v, r, Resynced(v, Outcome(r))) && RereadHeeded(v, r, Resynced(v.(degraded := true), Outcome(r)))
  {
    if r.scanUp {
      var keys := Pages(r.pages);
      var events := Reads(r.durable, r.readable, keys);
      ReadsFindsExactly(r.durable, r.readable, keys);
      forall t ensures Refuses(Replayed(events), t) <==> exists k :: Reached(r, k) && Covers(r.durable[k].event, t) {
        ReplayIsExact(events, t);
        forall k ensures k in keys && k in r.durable && k in r.readable && r.durable[k].event.id != "" <==> Reached(r, k) {
          PagesExactly(r.pages, k);
        }
        if e :| e in events && Covers(e, t) {
          var k :| k in keys && k in r.durable && k in r.readable && r.durable[k].event == e && e.id != "";
          assert Reached(r, k);
        }
      }
    }
  }

  lemma SignalIsHeeded(v: View, signal: Signal, life: Time)
    ensures Heeded(v, signal, life, OnSignal(v, signal, life))
  {
    match signal
    case Message(None) =>
    case Message(Some(e)) => forall t { ApplyAddsExactly(v.lists, e, t); }
    case Closed(r) => RereadIsHeeded(v, r);
    case ResyncTick(r) => RereadIsHeeded(v, r);
    case PruneTick(_) =>
  }

  /** The views the loop goes through: the first reread, then each signal in turn. */
  ghost predicate AllHeeded(v: View, first: Reread, signals: seq<Signal>, life: Time, views: seq<View>) {
    && |views| == |signals| + 1 && RereadHeeded(v, first, views[0])
    && forall i :: 0 <= i < |signals| ==> Heeded(views[i], signals[i], life, views[i + 1])
  }

  function Views(v: View, signals: seq<Signal>, life: Time): seq<View> {
    seq(|signals| + 1, i requires 0 <= i <= |signals| => Watched(v, signals[..i], life))
  }

  lemma WatchedStep(v: View, signals: seq<Signal>, i: nat, life: Time)
    requires i < |signals|
    ensures Watched(v, signals[..i + 1], life) == OnSignal(Watched(v, signals[..i], life), signals[i], life)
  {
    assert signals[..i + 1][..i] == signals[..i];
  }

  /** The loop heeds every signal. */
  lemma WatchedIsHeeded(v: View, first: Reread, signals: seq<Signal>, life: Time)
    ensures var begin := Resynced(v, Outcome(first));
            AllHeeded(v, first, signals, life, Views(begin, signals, life)) && Views(begin, signals, life)[|signals|] == Watched(begin, signals, life)
  {
    var begin := Resynced(v, Outcome(first));
    RereadIsHeeded(v, first);
    forall i | 0 <= i < |signals|
      ensures Heeded(Watched(begin, signals[..i], life), signals[i], life, Watched(begin, signals[..i + 1], life))
    {
      WatchedStep(begin, signals, i, life);
      SignalIsHeeded(Watched(begin, signals[..i], life), signals[i], life);
    }
    assert signals[..|signals|] == signals;
  }

  // ----- The object -----

  class Store {
    const maxTokenLife: Time
    var durable: map<string, Record>
    var channel: seq<Event>

    constructor (life: Time)
      ensures maxTokenLife == if life > 0 then life else 2 * 60 * 60 * 1_000_000_000
      ensures durable == map[] && channel == []
    {
      maxTokenLife := if life <= 0 then TWO_HOURS else life;
      durable, channel := map[], [];
    }

    /**
     * Record first, then announce. Nothing is announced that is not recorded; a lost
     * announcement is not an error, because the record is there for the next reread.
     */
    method Publish(kind: Kind, id: string, at: Option<Time>, now: Time, storeUp: bool, channelUp: bool)
      returns (r: Reply<Event>)
      modifies this`durable, this`channel
      ensures r.Ok? <==> storeUp
      ensures r.Refused? ==> durable == old(durable) && channel == old(channel)
      ensures r.Ok? ==>
        && r.value == Event(kind, id, if at.Some? then at.value else now)
        && durable == old(durable)[StoreKey(r.value) := Record(r.value, now + maxTokenLife)]
        && channel == old(channel) + (if channelUp then [r.value] else [])
    {
      var e := Event(kind, id, now);
      if at.Some? { e := e.(at := at.value); }
      if !storeUp { return Refused(StoreFailed); }
      durable := durable[StoreKey(e) := Record(e, now + maxTokenLife)];
      if channelUp { channel := channel + [e]; }
      return Ok(e);
    }

    /**
     * Reads the whole set page by page. `pages` is what the scan yields and `readable` the
     * keys whose read succeeds; a failed scan is an error, a failed read is not.
     */
    method All(pages: seq<seq<string>>, scanUp: bool, readable: set<string>) returns (r: Reply<seq<Event>>)
      ensures r.Ok? <==> scanUp
      ensures r.Ok? ==> r.value == Reads(durable, readable, Pages(pages))
      ensures r.Ok? ==> forall e :: e in r.value <==>
                exists k :: Reached(Reread(durable, readable, pages, scanUp), k) && durable[k].event == e
    {
      var events := [];
      for i := 0 to |pages|
        invariant events == Reads(durable, readable, Pages(pages[..i]))
      {
        var before := Pages(pages[..i]);
        assert before + pages[i][..0] == before;
        for j := 0 to |pages[i]|
          invariant events == Reads(durable, readable, before + pages[i][..j])
        {
          var k := pages[i][j];
          var seen := before + pages[i][..j + 1];
          assert seen[..|seen| - 1] == before + pages[i][..j];
          if k in durable && k in readable {
            var e := durable[k].event;
            if e.id != "" { events := events + [e]; }
          }
        }
        assert pages[..i + 1][..i] == pages[..i] && before + pages[i][..|pages[i]|] == Pages(pages[..i + 1]);
      }
      if !scanUp { return Refused(StoreFailed); }
      assert pages[..|pages|] == pages;
      ReadsReach(pages, scanUp, readable);
      return Ok(events);
    }

    lemma ReadsReach(pages: seq<seq<string>>, scanUp: bool, readable: set<string>)
      ensures forall e :: e in Reads(durable, readable, Pages(pages)) <==>
                exists k :: Reached(Reread(durable, readable, pages, scanUp), k) && durable[k].event == e
    {
      ReadsFindsExactly(durable, readable, Pages(pages));
      forall k { PagesExactly(pages, k); }
    }

    /** Rereads the durable set as it is now. */
    method Resync(list: List, pages: seq<seq<string>>, scanUp: bool, readable: set<string>)
      modifies list
      ensures list.Look() == Resynced(old(list.Look()), Outcome(Reread(durable, readable, pages, scanUp)))
      ensures RereadHeeded(old(list.Look()), Reread(durable, readable, pages, scanUp), list.Look())
    {
      RereadIsHeeded(list.Look(), Reread(durable, readable, pages, scanUp));
      var read := All(pages, scanUp, readable);
      if read.Refused? {
        list.MarkDegraded();
      } else {
        list.Replace(read.value);
      }
    }

    /** A reread finds the durable set as others have left it by then. */
    method ResyncThen(list: List, reread: Reread)
      modifies this`durable, list
      ensures durable == reread.durable
      ensures list.Look() == Resynced(old(list.Look()), Outcome(reread))
    {
      durable := reread.durable;
      Resync(list, reread.pages, reread.scanUp, reread.readable);
    }

    /** One turn of the loop. */
    method Hear(list: List, signal: Signal)
      modifies this`durable, list
      ensures list.Look() == OnSignal(old(list.Look()), signal, maxTokenLife)
    {
      match signal {
        case Message(None) =>
        case Message(Some(e)) => list.Apply(e);
        case Closed(reread) =>
          list.MarkDegraded();
          ResyncThen(list, reread);
        case ResyncTick(reread) => ResyncThen(list, reread);
        case PruneTick(now) => list.Prune(maxTokenLife, now);
      }
    }

    /** The event loop over the signals it receives, after the reread that comes first. */
    method Watch(list: List, first: Reread, signals: seq<Signal>)
      modifies this`durable, list
      ensures list.Look() == Watched(Resynced(old(list.Look()), Outcome(first)), signals, maxTokenLife)
      ensures exists views :: AllHeeded(old(list.Look()), first, signals, maxTokenLife, views) && list.Look() == views[|signals|]
    {
      ghost var start := list.Look();
      ResyncThen(list, first);
      ghost var begin := list.Look();
      for i := 0 to |signals|
        invariant list.Look() == Watched(begin, signals[..i], maxTokenLife)
      {
        Hear(list, signals[i]);
        assert signals[..i + 1][..i] == signals[..i];
      }
      assert signals[..|signals|] == signals;
      WatchedIsHeeded(start, first, signals, maxTokenLife);
    }
  }
}
