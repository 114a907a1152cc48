/** Connections and back ends together: what handing connections back does to the failure
    windows of the back ends they belong to. */
module BackendCharges {
  import opened Common
  import B = Backend
  import F = FailureWindow
  import opened Connections

  /** The connections, and the back ends by upstream and server key. */
  datatype World = World(s: State, backends: map<Owner, B.State>)

  /** An operation on connections; a turn of the weighted scan, in which the winner pays; or a
      query of the plain round robin. */
  datatype Event =
    | Handles(a: Action)
    | Scans(at: Owner, now: int, pays: int)
    | Asks(at: Owner, now: int)

  ghost predicate Fits(w: World, e: Event) {
    Inv(w.s) &&
    match e
    case Handles(a) => Enabled(w.s, a)
    case Scans(at, _, _) => at in w.backends
    case Asks(at, _) => at in w.backends
  }

  function Scanned(b: B.State, now: int, pays: int): B.State {
    var c := B.Advanced(b, now);
    c.(current := c.current - pays)
  }

  /** The back ends after an operation: comm_failed is called when the hand-back says so. */
  function Charged(w: World, a: Action): map<Owner, B.State>
    requires Enabled(w.s, a)
  {
    if !a.UpstreamBack? then w.backends else
    var o := w.s.pool.conns[a.id].owner.value;
    var charged := UpstreamFree(w.s.pool, w.s.upstreams[o.upstream], a.id, a.code, a.now).2;
    if charged && o in w.backends then w.backends[o := B.Failed(w.backends[o], a.now)] else w.backends
  }

  ghost function Do(w: World, e: Event): (t: World)
    requires Fits(w, e)
    ensures Inv(t.s) && t.backends.Keys == w.backends.Keys
  {
    match e
    case Handles(a) => World(Step(w.s, a), Charged(w, a))
    case Scans(at, now, pays) => w.(backends := w.backends[at := Scanned(w.backends[at], now, pays)])
    case Asks(at, now) => w.(backends := w.backends[at := B.Queried(w.backends[at], now)])
  }

  ghost predicate Run(w: World, evs: seq<Event>)
    decreases |evs|, 0
  {
    evs == [] ||
    (Run(w, evs[..|evs| - 1]) && Fits(After(w, evs[..|evs| - 1]), evs[|evs| - 1]))
  }

  ghost function After(w: World, evs: seq<Event>): World
    requires Run(w, evs)
    decreases |evs|, 1
  {
    if evs == [] then w else Do(After(w, evs[..|evs| - 1]), evs[|evs| - 1])
  }

  // ---------- what one back end sees of a run ----------

  /** A connection of back end `o`, in use until then, is handed back with an error. */
  ghost predicate HandsBackFailed(w: World, e: Event, o: Owner) {
    && e.Handles? && e.a.UpstreamBack? && e.a.code != Fine && e.a.id in w.s.inUse
    && e.a.id < |w.s.pool.conns| && w.s.pool.conns[e.a.id].owner == Some(o)
  }

  ghost function Seen(w: World, e: Event, o: Owner): seq<F.Event> {
    if HandsBackFailed(w, e, o) then [F.Failure(e.a.now)]
    else if !e.Handles? && e.at == o then [F.Query(e.now)]
    else []
  }

  ghost function AllSeen(w: World, evs: seq<Event>, o: Owner): seq<F.Event>
    requires Run(w, evs)
  {
    if evs == [] then [] else
    AllSeen(w, evs[..|evs| - 1], o) + Seen(After(w, evs[..|evs| - 1]), evs[|evs| - 1], o)
  }

  /** All of a back end but its weights. */
  predicate SameWindow(a: B.State, b: B.State) {
    a.(weight := b.weight, current := b.current, effective := b.effective) == b
  }

  lemma SeenAlike(a: B.State, b: B.State, now: int, pays: int)
    requires SameWindow(a, b)
    ensures SameWindow(B.Failed(a, now), B.Failed(b, now))
    ensures SameWindow(B.Queried(a, now), B.Queried(b, now))
    ensures SameWindow(Scanned(a, now, pays), B.Queried(b, now))
    ensures B.Up(a, now) <==> B.Up(b, now)
  {
  }

  lemma StepSeen(w: World, e: Event, o: Owner)
    requires Fits(w, e) && o in w.backends
    ensures var b, seen := Do(w, e).backends[o], Seen(w, e, o);
      if seen == [] then b == w.backends[o] else |seen| == 1 && SameWindow(b, F.Apply(w.backends[o], seen[0]))
  {
    hide Inv, UpstreamFree, B.Failed, B.Queried, B.Advanced;
    match e {
      case Handles(a) =>
        if a.UpstreamBack? {
          ChargedIff(w.s, a.id, a.code, a.now);
        }
      case Scans(at, now, pays) => SeenAlike(w.backends[at], w.backends[at], now, pays);
      case Asks(at, now) =>
    }
  }

  /** On every run the failure window of each back end is that of the failures handed back and
      the queries made of it, whatever else happens: each connection in use handed back with an
      error counts once, at its time, against its own back end, and nothing else does. */
  lemma {:induction false} WindowsFollow(w: World, evs: seq<Event>, o: Owner)
    requires Run(w, evs) && o in w.backends
    ensures o in After(w, evs).backends
    ensures SameWindow(After(w, evs).backends[o], F.After(w.backends[o], AllSeen(w, evs, o)))
  {
    if evs != [] {
      var front, e := evs[..|evs| - 1], evs[|evs| - 1];
      WindowsFollow(w, front, o);
      hide Do, Fits, Seen, F.Apply, SameWindow;
      OneMoreSeen(After(w, front), e, o, F.After(w.backends[o], AllSeen(w, front, o)));
      AfterAppended(w.backends[o], AllSeen(w, front, o), Seen(After(w, front), e, o));
    }
  }

  /** The windows after some more events. */
  function Onward(b: B.State, evs: seq<F.Event>): B.State
    requires |evs| <= 1
  {
    if evs == [] then b else F.Apply(b, evs[0])
  }

  lemma OneMoreSeen(w: World, e: Event, o: Owner, b: B.State)
    requires Fits(w, e) && o in w.backends && SameWindow(w.backends[o], b)
    ensures |Seen(w, e, o)| <= 1
    ensures SameWindow(Do(w, e).backends[o], Onward(b, Seen(w, e, o)))
  {
    StepSeen(w, e, o);
    if Seen(w, e, o) != [] {
      SeenAlike(w.backends[o], b, Seen(w, e, o)[0].now, 0);
    }
    hide Do, Fits, Seen;
  }

  lemma AfterAppended(b: B.State, evs: seq<F.Event>, more: seq<F.Event>)
    requires |more| <= 1
    ensures F.After(b, evs + more) == Onward(F.After(b, evs), more)
  {
    if more == [] {
      assert evs + more == evs;
    } else {
      assert (evs + more)[..|evs|] == evs;
    }
  }

  /** The window of `b` has run out by `first`, as far as the cast can tell, and the rest of these
      events fall within the one that `first` starts. */
  predicate StartsWindow(b: B.State, first: int, rest: seq<F.Event>) {
    && b.failCheck && 0 < b.failTime < B.TWO_31 - 1 && !b.fail && 0 < b.failNum
    && first - b.errFirst > b.failTime && F.CastFaithful(first - b.errFirst, b.failTime + 1)
    && F.InWindow(rest, first, b.failTime)
  }

  /** fail_maxnum connections handed back with errors within one window, and no fewer, mark
      their back end down, and it is not chosen until fail_timeout has passed since the last of
      them. The window is one that the first of them starts. */
  lemma HandBacksMarkDown(w: World, evs: seq<Event>, o: Owner, first: int, rest: seq<F.Event>, now: int)
    requires Run(w, evs) && o in w.backends && AllSeen(w, evs, o) == [F.Failure(first)] + rest
    requires StartsWindow(w.backends[o], first, rest)
    ensures o in After(w, evs).backends
    ensures var c, times := After(w, evs).backends[o], [first] + F.Failures(rest);
      && (c.fail <==> |times| >= w.backends[o].failNum)
      && (c.fail && 0 <= now - times[|times| - 1] < w.backends[o].failTime ==> !B.Up(c, now))
  {
    WindowsFollow(w, evs, o);
    hide *;
    WindowMarksDown(w.backends[o], After(w, evs).backends[o], first, rest, now);
  }

  lemma WindowMarksDown(b: B.State, c: B.State, first: int, rest: seq<F.Event>, now: int)
    requires StartsWindow(b, first, rest) && SameWindow(c, F.After(b, [F.Failure(first)] + rest))
    ensures var times := [first] + F.Failures(rest);
      && (c.fail <==> |times| >= b.failNum)
      && (c.fail && 0 <= now - times[|times| - 1] < b.failTime ==> !B.Up(c, now))
  {
    hide F.After, F.Failures, F.InWindow;
    F.MarkedDownWhenCrowded(b, first, rest);
  }
}
