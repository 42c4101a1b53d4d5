/**
 * The subscriber's loop is the protocol: whatever happens elsewhere, each signal the loop hears
 * is a run of protocol steps, so what is proved of runs holds of the loop.
 */
module RevocationRuns {
  import opened Wrappers
  import opened RevocationList
  import opened RevocationProtocol
  import opened RevocationStore

  // ----- Runs end to end -----

  lemma {:induction false} RunAppend(s: State, xs: seq<Step>, ys: seq<Step>, life: Time)
    ensures Run(s, xs + ys, life) == Run(Run(s, xs, life), ys, life)
    ensures AllEnabled(s, xs + ys, life) <==> AllEnabled(s, xs, life) && AllEnabled(Run(s, xs, life), ys, life)
    decreases |xs|
  {
    var all := xs + ys;
    if xs == [] {
      assert all == ys;
    } else {
      assert all[0] == xs[0] && all[1..] == xs[1..] + ys;
      RunAppend(Next(s, xs[0], life), xs[1..], ys, life);
    }
  }

  lemma OneStep(s: State, step: Step, life: Time)
    ensures Run(s, [step], life) == Next(s, step, life)
    ensures AllEnabled(s, [step], life) <==> Enabled(s, step, life)
  {
    assert [step][1..] == [];
  }

  // ----- One reread -----

  /** The read of one key: it fails where there is something to read and the read does not succeed. */
  function ReadStep(r: Reread, k: string): Step {
    if k in r.durable && k !in r.readable then ReadFails(k) else ReadKey(k)
  }

  function ReadSteps(r: Reread, keys: seq<string>): seq<Step> {
    if keys == [] then [] else ReadSteps(r, keys[..|keys| - 1]) + [ReadStep(r, keys[|keys| - 1])]
  }

  /** The steps of a reread. */
  function RereadSteps(r: Reread): seq<Step> {
    if r.scanUp then [BeginScan] + ReadSteps(r, Pages(r.pages)) + [EndScan] else [BeginScan, ScanFails]
  }

  /** The store holds readable records, and these. */
  ghost predicate Stores(s: State, r: Reread) {
    s.durable == r.durable && forall k :: k in r.durable ==> r.durable[k].event.id != ""
  }

  function ReadOf(r: Reread, k: string): seq<Event> {
    if k in r.durable && k in r.readable then [r.durable[k].event] else []
  }

  lemma OneRead(s: State, r: Reread, k: string, life: Time)
    requires s.scan.Some? && Stores(s, r)
    ensures var c := s.scan.value;
            Next(s, ReadStep(r, k), life) == s.(scan := Some(c.(pending := c.pending - {k}, got := c.got + ReadOf(r, k))))
    ensures Readable(r) ==> Enabled(s, ReadStep(r, k), life)
  {
    assert s.scan.value.got + [] == s.scan.value.got;
  }

  lemma {:induction false} ReadStepsRead(s: State, r: Reread, keys: seq<string>, life: Time)
    requires s.scan.Some? && Stores(s, r)
    ensures var c := s.scan.value;
            Run(s, ReadSteps(r, keys), life) ==
              s.(scan := Some(c.(pending := c.pending - (set k | k in keys), got := c.got + Reads(r.durable, r.readable, keys))))
    ensures Readable(r) ==> AllEnabled(s, ReadSteps(r, keys), life)
  {
    var c := s.scan.value;
    if keys == [] {
      assert c.pending - (set k | k in keys) == c.pending && c.got + [] == c.got;
    } else {
      var head, last := keys[..|keys| - 1], keys[|keys| - 1];
      ReadStepsRead(s, r, head, life);
      RunAppend(s, ReadSteps(r, head), [ReadStep(r, last)], life);
      OneStep(Run(s, ReadSteps(r, head), life), ReadStep(r, last), life);
      OneRead(Run(s, ReadSteps(r, head), life), r, last, life);
      assert keys == head + [last];
      assert c.got + Reads(r.durable, r.readable, keys) == (c.got + Reads(r.durable, r.readable, head)) + ReadOf(r, last);
      assert (c.pending - (set k | k in head)) - {last} == c.pending - (set k | k in keys);
    }
  }

  /** The scan names every key there is. */
  ghost predicate Complete(r: Reread) {
    forall k :: k in r.durable ==> k in Pages(r.pages)
  }

  /** And every record it names can be read. */
  ghost predicate Readable(r: Reread) {
    forall k :: k in r.durable ==> k in r.readable
  }

  /** Where a reread stands when all is read. */
  function AllRead(s: State, r: Reread): State {
    s.(scan := Some(Scan(s.durable.Keys - (set k | k in Pages(r.pages)), Reads(r.durable, r.readable, Pages(r.pages)), s.history)))
  }

  lemma RereadReads(s: State, r: Reread, life: Time)
    requires s.scan.None? && Stores(s, r)
    ensures Run(s, [BeginScan] + ReadSteps(r, Pages(r.pages)), life) == AllRead(s, r)
    ensures Readable(r) ==> AllEnabled(s, [BeginScan] + ReadSteps(r, Pages(r.pages)), life)
  {
    OneStep(s, BeginScan, life);
    RunAppend(s, [BeginScan], ReadSteps(r, Pages(r.pages)), life);
    ReadStepsRead(Next(s, BeginScan, life), r, Pages(r.pages), life);
    assert [] + Reads(r.durable, r.readable, Pages(r.pages)) == Reads(r.durable, r.readable, Pages(r.pages));
  }

  /** A reread is a run of the protocol that leaves the list as the loop does, and nothing else changed. */
  lemma RereadIsRun(s: State, r: Reread, life: Time)
    requires s.scan.None? && Stores(s, r)
    ensures Run(s, RereadSteps(r), life) == s.(view := Resynced(s.view, Outcome(r)))
    ensures (r.scanUp ==> Complete(r) && Readable(r)) ==> AllEnabled(s, RereadSteps(r), life)
  {
    if r.scanUp {
      var begun := [BeginScan] + ReadSteps(r, Pages(r.pages));
      RereadReads(s, r, life);
      RunAppend(s, begun, [EndScan], life);
      OneStep(AllRead(s, r), EndScan, life);
      assert Complete(r) ==> AllRead(s, r).scan.value.pending == {};
    } else {
      RunAppend(s, [BeginScan], [ScanFails], life);
      OneStep(s, BeginScan, life);
      OneStep(Next(s, BeginScan, life), ScanFails, life);
      assert [BeginScan] + [ScanFails] == [BeginScan, ScanFails];
    }
  }

  // ----- One signal -----

  /** Something happens elsewhere, or the loop hears a signal. */
  datatype Happening = Elsewhere(step: Step) | Heard(signal: Signal)

  function StepsOf(h: Happening): seq<Step> {
    match h
    case Elsewhere(step) => [step]
    case Heard(Message(None)) => []
    case Heard(Message(Some(e))) => [Deliver(e)]
    case Heard(Closed(r)) => RereadSteps(r)
    case Heard(ResyncTick(r)) => RereadSteps(r)
    case Heard(PruneTick(_)) => [PruneNow]
  }

  /** The happening fits the state: a message was announced, a reread finds what is stored, a tick tells the time. */
  ghost predicate Fits(s: State, h: Happening, life: Time) {
    match h
    case Elsewhere(step) => (step.Publish? || step.Announce? || step.Expire? || step.Tick?) && Enabled(s, step, life)
    case Heard(Message(None)) => true
    case Heard(Message(Some(e))) => e in s.announced
    case Heard(Closed(r)) => Stores(s, r) && (r.scanUp ==> Complete(r) && Readable(r))
    case Heard(ResyncTick(r)) => Stores(s, r) && (r.scanUp ==> Complete(r) && Readable(r))
    case Heard(PruneTick(now)) => now == s.now
  }

  function Seen(v: View, h: Happening, life: Time): View {
    match h
    case Elsewhere(_) => v
    case Heard(signal) => OnSignal(v, signal, life)
  }

  /** A happening is a run of enabled steps, after which the list is what the loop makes it. */
  lemma HappeningIsRun(s: State, h: Happening, life: Time)
    requires s.scan.None? && Fits(s, h, life)
    ensures var s' := Run(s, StepsOf(h), life); s'.view == Seen(s.view, h, life) && s'.scan.None?
    ensures AllEnabled(s, StepsOf(h), life) && Restart !in StepsOf(h)
  {
    match h
    case Elsewhere(step) => OneStep(s, step, life);
    case Heard(Message(None)) =>
    case Heard(Message(Some(e))) => OneStep(s, Deliver(e), life);
    case Heard(Closed(r)) =>
      RereadIsRun(s, r, life);
      RereadHasNoRestart(r, Pages(r.pages));
    case Heard(ResyncTick(r)) =>
      RereadIsRun(s, r, life);
      RereadHasNoRestart(r, Pages(r.pages));
    case Heard(PruneTick(_)) => OneStep(s, PruneNow, life);
  }

  lemma {:induction false} RereadHasNoRestart(r: Reread, keys: seq<string>)
    ensures Restart !in ReadSteps(r, keys)
  {
    if keys != [] { RereadHasNoRestart(r, keys[..|keys| - 1]); }
  }

  // ----- The whole loop -----

  function AllSteps(hs: seq<Happening>): seq<Step> {
    if hs == [] then [] else AllSteps(hs[..|hs| - 1]) + StepsOf(hs[|hs| - 1])
  }

  /** The signals among the happenings. */
  function Signals(hs: seq<Happening>): seq<Signal> {
    if hs == [] then []
    else
      var rest := Signals(hs[..|hs| - 1]);
      match hs[|hs| - 1]
      case Elsewhere(_) => rest
      case Heard(signal) => rest + [signal]
  }

  ghost predicate AllFit(s: State, hs: seq<Happening>, life: Time) {
    hs == [] || (AllFit(s, hs[..|hs| - 1], life) && Fits(Run(s, AllSteps(hs[..|hs| - 1]), life), hs[|hs| - 1], life))
  }

  /** The loop's list is the protocol's, over any course of events. */
  lemma {:induction false} WatchIsRun(s: State, hs: seq<Happening>, life: Time)
    requires s.scan.None? && AllFit(s, hs, life)
    ensures var s' := Run(s, AllSteps(hs), life); s'.view == Watched(s.view, Signals(hs), life) && s'.scan.None?
    ensures AllEnabled(s, AllSteps(hs), life) && Restart !in AllSteps(hs)
  {
    if hs != [] {
      var head, last := hs[..|hs| - 1], hs[|hs| - 1];
      WatchIsRun(s, head, life);
      HappeningIsRun(Run(s, AllSteps(head), life), last, life);
      RunAppend(s, AllSteps(head), StepsOf(last), life);
      if last.Heard? { assert Signals(hs)[..|Signals(hs)| - 1] == Signals(head); }
    }
  }

  lemma StepsAssociate(xs: seq<Step>, ys: seq<Step>, zs: seq<Step>)
    ensures (xs + ys) + zs == xs + (ys + zs)
  {
  }

  lemma {:induction false} StepsAppend(hs: seq<Happening>, more: seq<Happening>)
    ensures AllSteps(hs + more) == AllSteps(hs) + AllSteps(more)
  {
    if more == [] {
      assert hs + more == hs;
    } else {
      var all := hs + more;
      var head, last := more[..|more| - 1], more[|more| - 1];
      assert all[..|all| - 1] == hs + head && all[|all| - 1] == last;
      StepsAppend(hs, head);
      StepsAssociate(AllSteps(hs), AllSteps(head), StepsOf(last));
    }
  }

  lemma {:induction false} FitAppend(s: State, hs: seq<Happening>, more: seq<Happening>, life: Time)
    requires AllFit(s, hs + more, life)
    ensures AllFit(s, hs, life)
  {
    if more == [] {
      assert hs + more == hs;
    } else {
      var all := hs + more;
      assert all[..|all| - 1] == hs + more[..|more| - 1];
      FitAppend(s, hs, more[..|more| - 1], life);
    }
  }

  /** The loop never lets a refused token through: over any course of events, until the token expires. */
  lemma LoopNeverUnrevokes(start: Time, hs: seq<Happening>, more: seq<Happening>, t: Token, life: Time)
    requires life > 0 && AllFit(Start(start), hs + more, life)
    requires Refuses(Watched(View(EMPTY, false), Signals(hs), life).lists, t)
    requires var end := Run(Start(start), AllSteps(hs + more), life); Legit(t, end.history, life) && end.now < t.expires
    ensures Refuses(Watched(View(EMPTY, false), Signals(hs + more), life).lists, t)
  {
    var s := Start(start);
    FitAppend(s, hs, more, life);
    WatchIsRun(s, hs, life);
    WatchIsRun(s, hs + more, life);
    StepsAppend(hs, more);
    RunAppend(s, AllSteps(hs), AllSteps(more), life);
    assert forall step :: step in AllSteps(more) ==> step in AllSteps(hs + more);
    NeverUnrevoked(start, AllSteps(hs), AllSteps(more), t, life);
  }

  /** After a reread that succeeds, on whatever occasion, the loop's list is exact for live tokens. */
  lemma LoopResyncIsExact(start: Time, hs: seq<Happening>, r: Reread, t: Token, life: Time)
    requires life > 0 && AllFit(Start(start), hs, life) && r.scanUp
    requires var s := Run(Start(start), AllSteps(hs), life);
             Stores(s, r) && Complete(r) && Readable(r) && Legit(t, s.history, life) && s.now < t.expires
    ensures var (s, v) := (Run(Start(start), AllSteps(hs), life), Watched(View(EMPTY, false), Signals(hs), life));
      && (Refuses(OnSignal(v, ResyncTick(r), life).lists, t) <==> Covered(s.history, t))
      && (Refuses(OnSignal(v, Closed(r), life).lists, t) <==> Covered(s.history, t))
  {
    var s := Run(Start(start), AllSteps(hs), life);
    var begun := [BeginScan] + ReadSteps(r, Pages(r.pages));
    WatchIsRun(Start(start), hs, life);
    RereadReads(s, r, life);
    RunAppend(Start(start), AllSteps(hs), begun, life);
    assert AllRead(s, r).scan.value.pending == {};
    ResyncIsExact(start, AllSteps(hs) + begun, t, life);
  }
}
