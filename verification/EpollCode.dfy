/** Registration and dispatch as the program performs them, each method proved to be the
    operation that Epoll reasons about. The results of epoll_ctl are parameters. */
module EpollCode {
  import opened Common
  import opened Epoll

  datatype Op = Add | Mod | Del

  // ---------- what a handler does to connections, and what a list of reports wakes ----------

  /** The handlers' own steps; one that cannot be taken is not. */
  function Performed(s: State, acts: seq<Action>): (t: State)
    ensures |t.conns| == |s.conns|
  {
    if acts == [] then s else
    var t, a := Performed(s, acts[..|acts| - 1]), acts[|acts| - 1];
    if Enabled(t, a) then Kept(t, a) else t
  }

  function Kept(s: State, a: Action): (t: State)
    requires Enabled(s, a)
    ensures |t.conns| == |s.conns|
  {
    StepVersion(s, a, a.id);
    Do(s, a)
  }

  /** What the handlers did when a report woke its reader and its writer. */
  datatype Script = Script(reader: seq<Action>, writer: seq<Action>)

  function HungUp(s: State, e: Report): State
    requires e.conn < |s.conns|
  {
    if RdHup in e.events then s.(conns := s.conns[e.conn := s.conns[e.conn].(pendingEof := true)]) else s
  }

  /** The connection woken by one report, once for each handler run, and the state after. */
  function Delivered(s: State, e: Report, script: Script): (r: (State, seq<nat>))
    requires e.conn < |s.conns|
    ensures |r.0.conns| == |s.conns|
  {
    if !Passes(s, e) then (s, []) else
    var (t, woken) := if WakesReader(s, e) then (Performed(HungUp(s, e), script.reader), [e.conn]) else (s, []);
    if WakesWriter(t, e) then (Performed(t, script.writer), woken + [e.conn]) else (t, woken)
  }

  function DeliveredAll(s: State, es: seq<Report>, scripts: seq<Script>): (r: (State, seq<nat>))
    requires |es| == |scripts| && forall i :: 0 <= i < |es| ==> es[i].conn < |s.conns|
    ensures |r.0.conns| == |s.conns|
  {
    if es == [] then (s, []) else
    var n := |es| - 1;
    var (t, woken) := DeliveredAll(s, es[..n], scripts[..n]);
    var (u, more) := Delivered(t, es[n], scripts[n]);
    (u, woken + more)
  }

  lemma {:induction false} PerformedVersions(s: State, acts: seq<Action>, id: nat)
    requires id < |s.conns|
    ensures s.conns[id].version <= Performed(s, acts).conns[id].version
  {
    if acts != [] {
      var rest, a := acts[..|acts| - 1], acts[|acts| - 1];
      PerformedVersions(s, rest, id);
      if Enabled(Performed(s, rest), a) {
        StepVersion(Performed(s, rest), a, id);
      }
    }
  }

  lemma DeliveredVersions(s: State, e: Report, script: Script, id: nat)
    requires e.conn < |s.conns| && id < |s.conns|
    ensures s.conns[id].version <= Delivered(s, e, script).0.conns[id].version
  {
    if Passes(s, e) {
      PerformedVersions(HungUp(s, e), script.reader, id);
      var t := if WakesReader(s, e) then Performed(HungUp(s, e), script.reader) else s;
      PerformedVersions(t, script.writer, id);
    }
  }

  lemma {:induction false} DeliveredAllVersions(s: State, es: seq<Report>, scripts: seq<Script>, id: nat)
    requires |es| == |scripts| && forall i :: 0 <= i < |es| ==> es[i].conn < |s.conns|
    requires id < |s.conns|
    ensures s.conns[id].version <= DeliveredAll(s, es, scripts).0.conns[id].version
  {
    if es != [] {
      var n := |es| - 1;
      DeliveredAllVersions(s, es[..n], scripts[..n], id);
      DeliveredVersions(DeliveredAll(s, es[..n], scripts[..n]).0, es[n], scripts[n], id);
    }
  }

  /** In one batch of reports, a connection whose use a handler ended is woken by none of the
      batch's later reports, whatever the handlers in between do. */
  lemma {:induction false} EndedIsSilent(s: State, es: seq<Report>, scripts: seq<Script>, id: nat)
    requires |es| == |scripts| && forall i :: 0 <= i < |es| ==> es[i].conn < |s.conns|
    requires id < |s.conns|
    requires forall i :: 0 <= i < |es| && es[i].conn == id ==> es[i].version < s.conns[id].version
    ensures id !in DeliveredAll(s, es, scripts).1
  {
    if es != [] {
      var n := |es| - 1;
      EndedIsSilent(s, es[..n], scripts[..n], id);
      DeliveredAllVersions(s, es[..n], scripts[..n], id);
    }
  }

  // ---------- who a report runs ----------

  /** A handler whose steps can all be taken takes them, and no others. */
  lemma {:induction false} PerformedIsRun(s: State, acts: seq<Action>)
    requires Run(s, acts)
    ensures Performed(s, acts) == After(s, acts)
    decreases |acts|
  {
    if acts != [] {
      var front, last := acts[..|acts| - 1], acts[|acts| - 1];
      assert front + [last] == acts;
      RunFront(s, front, last);
      hide Do, Enabled;
      PerformedIsRun(s, front);
    }
  }

  lemma {:induction false} RunFront(s: State, front: seq<Action>, last: Action)
    requires Run(s, front + [last])
    ensures Run(s, front) && Enabled(After(s, front), last)
    ensures After(s, front + [last]) == Do(After(s, front), last)
    decreases |front|
  {
    hide Do, Enabled;
    var acts := front + [last];
    if front == [] {
      assert acts[1..] == [];
    } else {
      assert acts[1..] == front[1..] + [last];
      RunFront(Do(s, front[0]), front[1..], last);
    }
  }

  /** The reader's events are active exactly when epoll would report them in this use, and so
      is the writer's. */
  lemma ActiveIsHeard(s: State, id: nat)
    requires Inv(s) && id < |s.conns|
    ensures s.conns[id].readActive <==> Hears(s, id, In) || Hears(s, id, RdHup)
    ensures s.conns[id].writeActive <==> Hears(s, id, Out)
  {
    HearsWhen(s, id, In);
    HearsWhen(s, id, RdHup);
    HearsWhen(s, id, Out);
    assert FlagsFit(s.conns[id]);
  }

  /** A report of input or of a hang-up runs the handler of a connection that reads, once, a
      hang-up being noted first; so does an error that comes without input or output. A second
      run, to write, follows exactly if output or such an error was reported and the
      connection watches for output by then. */
  lemma ReportRunsReader(s: State, e: Report, script: Script)
    requires Inv(s) && e.conn < |s.conns| && e.version == s.conns[e.conn].version
    requires Hears(s, e.conn, In) || Hears(s, e.conn, RdHup)
    requires In in e.events || RdHup in e.events || (Out !in e.events && (Err in e.events || Hup in e.events))
    ensures var c := s.conns[e.conn];
      var told := s.(conns := s.conns[e.conn := c.(pendingEof := c.pendingEof || RdHup in e.events)]);
      var t := Performed(told, script.reader);
      && (Out !in e.events && (In in e.events || (Err !in e.events && Hup !in e.events)) ==>
            Delivered(s, e, script) == (t, [e.conn]))
      && (Out in e.events || (In !in e.events && (Err in e.events || Hup in e.events)) ==>
            && (!t.conns[e.conn].writeActive ==> Delivered(s, e, script) == (t, [e.conn]))
            && (t.conns[e.conn].writeActive ==>
                  Delivered(s, e, script) == (Performed(t, script.writer), [e.conn, e.conn])))
      && (Inv(t) ==> (t.conns[e.conn].writeActive <==> Hears(t, e.conn, Out)))
  {
    var c := s.conns[e.conn];
    var told := s.(conns := s.conns[e.conn := c.(pendingEof := c.pendingEof || RdHup in e.events)]);
    ActiveIsHeard(s, e.conn);
    assert told == HungUp(s, e) by {
      assert s.conns[e.conn := c] == s.conns;
    }
    var t := Performed(told, script.reader);
    if Inv(t) {
      ActiveIsHeard(t, e.conn);
    }
    hide Inv, Hears, Performed, HungUp;
    assert [e.conn] + [e.conn] == [e.conn, e.conn];
  }

  /** Where no input, hang-up or lone error is reported, or the connection does not read, a
      report of output or a lone error runs the handler of a connection that writes, once; and
      whoever watches for nothing that was reported is not run. */
  lemma ReportRunsWriter(s: State, e: Report, script: Script)
    requires Inv(s) && e.conn < |s.conns| && e.version == s.conns[e.conn].version
    requires
      || (!Hears(s, e.conn, In) && !Hears(s, e.conn, RdHup))
      || (In !in e.events && RdHup !in e.events && (Out in e.events || (Err !in e.events && Hup !in e.events)))
    ensures Hears(s, e.conn, Out) && (Out in e.events || (In !in e.events && (Err in e.events || Hup in e.events))) ==>
      Delivered(s, e, script) == (Performed(s, script.writer), [e.conn])
    ensures !Hears(s, e.conn, Out) || (Out !in e.events && (In in e.events || (Err !in e.events && Hup !in e.events)))
      ==> Delivered(s, e, script) == (s, [])
  {
    ActiveIsHeard(s, e.conn);
    hide Inv, Hears, Performed;
    assert [] + [e.conn] == [e.conn];
  }

  /** The handlers of these reports do nothing to connection `id`. */
  ghost predicate LeftAlone(scripts: seq<Script>, id: nat) {
    && (forall i, k :: 0 <= i < |scripts| && 0 <= k < |scripts[i].reader| ==> scripts[i].reader[k].id != id)
    && (forall i, k :: 0 <= i < |scripts| && 0 <= k < |scripts[i].writer| ==> scripts[i].writer[k].id != id)
  }

  predicate AsWatched(s: State, t: State, id: nat)
    requires id < |s.conns| == |t.conns|
  {
    var c, d := s.conns[id], t.conns[id];
    d.version == c.version && d.readActive == c.readActive && d.writeActive == c.writeActive
  }

  lemma {:induction false} PerformedElsewhere(s: State, acts: seq<Action>, id: nat)
    requires id < |s.conns| && forall k :: 0 <= k < |acts| ==> acts[k].id != id
    ensures Performed(s, acts).conns[id] == s.conns[id]
  {
    if acts != [] {
      var rest, a := acts[..|acts| - 1], acts[|acts| - 1];
      PerformedElsewhere(s, rest, id);
      if Enabled(Performed(s, rest), a) {
        StepVersion(Performed(s, rest), a, id);
      }
    }
  }

  lemma DeliveredElsewhere(s: State, e: Report, script: Script, id: nat)
    requires e.conn < |s.conns| && id < |s.conns| && LeftAlone([script], id)
    ensures AsWatched(s, Delivered(s, e, script).0, id)
  {
    assert [script][0] == script;
    PerformedElsewhere(HungUp(s, e), script.reader, id);
    var t := if WakesReader(s, e) then Performed(HungUp(s, e), script.reader) else s;
    PerformedElsewhere(t, script.writer, id);
    hide Performed;
  }

  lemma {:induction false} DeliveredAllElsewhere(s: State, es: seq<Report>, scripts: seq<Script>, id: nat)
    requires |es| == |scripts| && forall i :: 0 <= i < |es| ==> es[i].conn < |s.conns|
    requires id < |s.conns| && LeftAlone(scripts, id)
    ensures AsWatched(s, DeliveredAll(s, es, scripts).0, id)
  {
    if es != [] {
      var n := |es| - 1;
      DeliveredAllElsewhere(s, es[..n], scripts[..n], id);
      DeliveredElsewhere(DeliveredAll(s, es[..n], scripts[..n]).0, es[n], scripts[n], id);
    }
  }

  /** Delivered to a connection that watches for what is reported, or for anything when an error
      comes alone, a report runs it. */
  lemma WatcherRuns(s: State, e: Report, script: Script, what: Event)
    requires e.conn < |s.conns| && e.version == s.conns[e.conn].version
    requires what in e.events || (In !in e.events && Out !in e.events && (Err in e.events || Hup in e.events))
    requires what == In || what == RdHup ==> s.conns[e.conn].readActive
    requires what == Out ==> s.conns[e.conn].writeActive
    requires what != Err && what != Hup
    ensures e.conn in Delivered(s, e, script).1
  {
    hide Performed;
    assert forall woken: seq<nat> :: e.conn in woken + [e.conn] by {
      forall woken: seq<nat> ensures e.conn in woken + [e.conn] {
        assert (woken + [e.conn])[|woken|] == e.conn;
      }
    }
  }

  /** No report is lost in a batch: what is reported of a use that goes on, to a connection that
      hears it and that no handler run before it in the batch touches, runs its handler; and so
      does an error that is reported alone, to a connection that hears anything. */
  lemma {:induction false} NoReportLost(s: State, es: seq<Report>, scripts: seq<Script>, at: nat, what: Event)
    requires Inv(s)
    requires |es| == |scripts| && forall i :: 0 <= i < |es| ==> es[i].conn < |s.conns|
    requires at < |es| && LeftAlone(scripts[..at], es[at].conn)
    requires es[at].version == s.conns[es[at].conn].version
    requires what != Err && what != Hup && Hears(s, es[at].conn, what)
    requires var events := es[at].events;
      what in events || (In !in events && Out !in events && (Err in events || Hup in events))
    ensures es[at].conn in DeliveredAll(s, es, scripts).1
    decreases |es|
  {
    hide Inv, Hears, Delivered;
    var n := |es| - 1;
    var t := DeliveredAll(s, es[..n], scripts[..n]).0;
    if at < n {
      assert scripts[..n][..at] == scripts[..at];
      NoReportLost(s, es[..n], scripts[..n], at, what);
    } else {
      DeliveredAllElsewhere(s, es[..n], scripts[..n], es[at].conn);
      ActiveIsHeard(s, es[at].conn);
      WatcherRuns(t, es[at], scripts[at], what);
    }
  }

  class CoEpoll {
    var connections: seq<Conn>
    var kernel: map<nat, Registration>

    ghost function View(): State
      reads this
    {
      State(connections, kernel)
    }

    constructor (size: nat)
      ensures View() == State(seq(size, i => Conn(0, {}, 0, false, false, false, None)), map[])
      ensures Inv(View())
    {
      connections, kernel := seq(size, i => Conn(0, {}, 0, false, false, false, None)), map[];
    }

    method EpollCtl(op: Op, fd: Option<nat>, r: Registration, ok: bool) returns (done: bool)
      modifies this`kernel
      ensures var k := match op
          case Add => CtlAdd(old(kernel), fd, r, ok)
          case Mod => CtlMod(old(kernel), fd, r, ok)
          case Del => CtlDel(old(kernel), fd, ok);
        done == k.Some? && kernel == if k.Some? then k.value else old(kernel)
    {
      done := ok && fd.Some? && ((fd.value in kernel) == !op.Add?);
      if done {
        kernel := if op.Del? then kernel - {fd.value} else kernel[fd.value := r];
      }
    }

    method ModifyConnection(id: nat, add: bool, events: set<Event>, ok: bool) returns (done: bool)
      requires id < |connections|
      modifies this
      ensures View() == Modify(old(View()), id, add, events, ok)
      ensures done == (connections[id].curEvents == Target(old(connections[id]), add, events)
                       && connections[id].curVersion == connections[id].version)
      ensures !done ==> View() == old(View())
    {
      var c := connections[id];
      var pre := c.curEvents;
      var cur := if add then pre + events else pre - events;
      if cur == pre && c.curVersion == c.version {
        return true;
      }
      var op := Add;
      if pre != {} {
        op := if cur == {} then Del else Mod;
      }
      done := EpollCtl(op, c.fd, Registration(cur, id, c.version), ok);
      if done {
        Record(id, cur);
      }
    }

    /** The fields once epoll has taken the events. */
    method Record(id: nat, cur: set<Event>)
      requires id < |connections|
      modifies this`connections
      ensures connections == old(connections)[id := Told(old(connections[id]), cur)]
    {
      var c := connections[id];
      c := c.(curEvents := cur, curVersion := c.version);
      if In in cur || RdHup in cur {
        c := c.(readActive := true);
      } else {
        c := c.(readActive := false);
      }
      if Out in cur {
        c := c.(writeActive := true);
      } else {
        c := c.(writeActive := false);
      }
      connections := connections[id := c];
    }

    method DelConnection(id: nat, ok: bool) returns (done: bool)
      requires id < |connections|
      modifies this
      ensures View() == Delete(old(View()), id, ok)
      ensures done == (connections[id].curEvents == {})
      ensures !done ==> View() == old(View())
    {
      var c := connections[id];
      if c.curEvents == {} {
        return true;
      }
      done := EpollCtl(Del, c.fd, Registration({}, 0, 0), ok);
      if done {
        c := c.(curEvents := {}, curVersion := 0, readActive := false, writeActive := false);
        connections := connections[id := c];
      }
    }

    method Reset(id: nat)
      requires id < |connections|
      modifies this`connections
      ensures View() == Renewed(old(View()), id)
    {
      var c := connections[id];
      c := c.(version := c.version + 1, pendingEof := false);
      c := c.(readActive := false);
      c := c.(writeActive := false);
      connections := connections[id := c];
    }

    /** free_connection of the pool, with the socket it closes. */
    method PoolFree(id: nat)
      requires id < |connections|
      modifies this
      ensures var s := old(View());
        View() == State(s.conns[id := Epoll.Reset(s.conns[id]).(fd := None)],
                        if s.conns[id].fd.Some? then s.kernel - {s.conns[id].fd.value} else s.kernel)
    {
      var c := connections[id];
      if c.fd.Some? {
        kernel := kernel - {c.fd.value};
        connections := connections[id := c.(fd := None)];
      }
      Reset(id);
    }

    /** `ok` is whether the request ended well; the other flags are what epoll_ctl answers. */
    method FreeRequestConnection(id: nat, ok: bool, firstOk: bool, secondOk: bool)
      requires id < |connections|
      modifies this
      ensures View() == if ok then KeepServer(old(View()), id, firstOk, secondOk)
                        else Close(old(View()), id, firstOk)
    {
      if !ok {
        var _ := DelConnection(id, firstOk);
        PoolFree(id);
        return;
      }
      Reset(id);
      var _ := ModifyConnection(id, true, {In}, firstOk);
      var _ := ModifyConnection(id, false, {Out}, secondOk);
    }

    /** The end of an upstream's free_connection, once it is settled whether to close. */
    method FreeUpstreamConnection(id: nat, closeConnection: bool, ok: bool)
      requires id < |connections|
      modifies this
      ensures View() == if closeConnection then Close(old(View()), id, ok) else KeepUpstream(old(View()), id, ok)
    {
      if closeConnection {
        var _ := DelConnection(id, ok);
        PoolFree(id);
        return;
      }
      Reset(id);
      var _ := ModifyConnection(id, false, {In, Out}, ok);
    }

    /** A handler's run, given by the steps it takes. */
    method Dispatch(acts: seq<Action>)
      modifies this
      ensures View() == Performed(old(View()), acts)
    {
      var i := 0;
      while i < |acts|
        invariant i <= |acts| && View() == Performed(old(View()), acts[..i])
      {
        assert acts[..i + 1][..i] == acts[..i];
        var t := State(connections, kernel);
        if Enabled(t, acts[i]) {
          t := Do(t, acts[i]);
          connections, kernel := t.conns, t.kernel;
        }
        i := i + 1;
      }
      assert acts[..i] == acts;
    }

    /** One report: dropped, or passed to the reader, the writer or both. */
    method Deliver(e: Report, script: Script) returns (woken: seq<nat>)
      requires e.conn < |connections|
      modifies this
      ensures (View(), woken) == Delivered(old(View()), e, script)
    {
      if connections[e.conn].version != e.version {
        return [];
      }
      woken := [];
      var revents := e.events;
      if (Err in revents || Hup in revents) && In !in revents && Out !in revents {
        revents := revents + {In, Out};
      }
      if (In in revents || RdHup in revents) && connections[e.conn].readActive {
        if RdHup in revents {
          connections := connections[e.conn := connections[e.conn].(pendingEof := true)];
        }
        Dispatch(script.reader);
        woken := [e.conn];
      }
      if Out in revents && connections[e.conn].writeActive {
        Dispatch(script.writer);
        woken := woken + [e.conn];
      }
    }

    /** The reports of one epoll_wait; `woken` lists the connections dispatched, in order. */
    method ProcessEvents(events: seq<Report>, scripts: seq<Script>) returns (woken: seq<nat>)
      requires |events| == |scripts| && forall i :: 0 <= i < |events| ==> events[i].conn < |connections|
      modifies this
      ensures (View(), woken) == DeliveredAll(old(View()), events, scripts)
    {
      woken := [];
      var i := 0;
      while i < |events|
        invariant i <= |events| && |connections| == old(|connections|)
        invariant (View(), woken) == DeliveredAll(old(View()), events[..i], scripts[..i])
      {
        assert events[..i + 1][..i] == events[..i] && scripts[..i + 1][..i] == scripts[..i];
        var more := Deliver(events[i], scripts[i]);
        woken := woken + more;
        i := i + 1;
      }
      assert events[..i] == events && scripts[..i] == scripts;
    }
  }
}
