/** One attempt of a sub-request, from its connection to its finalisation, with the blocks that
    its stages defer. A stage sets what it returns with, then its deferred block runs, and then
    what was set; at the end of writing that block may itself finalise the request. */
module UpstreamStages {
  import opened Common
  import E = Epoll
  import opened SubRequest
  import opened SubRequestCode

  /** What an attempt meets: the answers of epoll, of the socket and of the user's code. */
  datatype Answers = Answers(
    initAdd: bool, connected: bool,
    writeAdd: bool, written: bool, writeDel: bool,
    readAdd: bool, readOk: bool, readDel: bool,
    processed: bool)

  /** How it finalises its request: once; as failed, twice; or as failed and then, reading on,
      maybe once more. */
  datatype Ending = Once(ok: bool) | OnceAndAgain | OnceAndRead

  /** modify_connection on the connection's own record, which agrees with epoll. */
  function Ask(c: E.Conn, add: bool, events: set<E.Event>, ok: bool): (E.Conn, bool) {
    var target := E.Target(c, add, events);
    if E.Knows(c, target) then (c, true)
    else if ok then (E.Told(c, target), true)
    else (c, false)
  }

  lemma AskIsModify(s: E.State, id: nat, add: bool, events: set<E.Event>, ok: bool)
    requires E.Inv(s) && id < |s.conns| && s.conns[id].fd.Some?
    ensures (E.Modify(s, id, add, events, ok).conns[id], E.Took(s, id, add, events, ok))
         == Ask(s.conns[id], add, events, ok)
  {
    assert E.Agrees(s, id) && E.FlagsFit(s.conns[id]);
  }

  // ---------- the stages on values ----------

  function InitStage(c: E.Conn, a: Answers): (E.Conn, Ending) {
    if c.readActive then WriteStage(c, a) else
    var (d, took) := Ask(c, true, {E.Out, E.RdHup}, a.initAdd);
    if !took || !a.connected then (d, Once(false)) else WriteStage(d, a)
  }

  function WriteStage(c: E.Conn, a: Answers): (E.Conn, Ending) {
    var (d, added) := Ask(c, true, {E.Out}, a.writeAdd);
    var (e, removed) := Ask(d, false, {E.Out}, a.writeDel);
    var onward := added && a.written;
    if removed then (if onward then ReadStage(e, a) else (e, Once(false)))
    else (e, if onward then OnceAndRead else OnceAndAgain)
  }

  /** Here the deferred block finalises nothing. */
  function ReadStage(c: E.Conn, a: Answers): (E.Conn, Ending) {
    var (d, added) := Ask(c, true, {E.In}, a.readAdd);
    (Ask(d, false, {E.In}, a.readDel).0, Once(added && a.readOk && a.processed))
  }

  // ---------- when a turn finalises once ----------

  /** The attempt comes to writing: on a connection used before at once, on a new one when
      epoll takes it and it is connected. */
  predicate Writes(c: E.Conn, a: Answers) {
    c.readActive || (a.initAdd && a.connected)
  }

  /** Writing is being watched for when it ends. */
  predicate WatchesOut(c: E.Conn, a: Answers) {
    !c.readActive || a.writeAdd || E.Out in c.curEvents
  }

  /** Epoll was asked to remove EPOLLOUT at the end of writing, and refused. */
  predicate RefusesRemoval(c: E.Conn, a: Answers) {
    Writes(c, a) && WatchesOut(c, a) && !a.writeDel
  }

  /** A turn that ends finalises its request exactly once if and only if epoll does not refuse
      the call that removes EPOLLOUT at the end of upstream_write. */
  lemma FinalisesOnceIff(c: E.Conn, a: Answers)
    requires E.FlagsFit(c)
    ensures InitStage(c, a).1.Once? <==> !RefusesRemoval(c, a)
    ensures InitStage(c, a).1 == Once(true) ==> a.written && a.readOk && a.processed && a.writeDel
  {
    if !c.readActive {
      var target := E.Target(c, true, {E.Out, E.RdHup});
      assert E.RdHup in target && E.Out in target;
      assert !E.Knows(c, target);
      if a.initAdd {
        OutRemoved(E.Told(c, target), a);
      }
    } else {
      OutRemoved(c, a);
    }
  }

  lemma OutRemoved(c: E.Conn, a: Answers)
    requires c.curVersion == c.version
    ensures WriteStage(c, a).1.Once? <==> a.writeDel || (!a.writeAdd && E.Out !in c.curEvents)
  {
    var target := c.curEvents + {E.Out};
    assert E.Knows(c, target) <==> E.Out in c.curEvents;
    var (d, added) := Ask(c, true, {E.Out}, a.writeAdd);
    assert added ==> E.Out in d.curEvents;
    assert E.Out !in d.curEvents - {E.Out};
  }

  /** A turn finalises its request as a success if and only if everything went well: the socket
      was watched and connected, the request written and the writing unwatched, the answer read
      and the user's code content. Then, once reading is unwatched too, what epoll holds for the
      connection is what it held before but for input and output, a hang-up included if the
      connection is new. */
  lemma SucceedsIff(c: E.Conn, a: Answers)
    requires E.FlagsFit(c)
    ensures InitStage(c, a).1 == Once(true) <==>
      && (c.readActive || (a.initAdd && a.connected))
      && (!c.readActive || a.writeAdd || E.Out in c.curEvents) && a.written && a.writeDel
      && (a.readAdd || E.In in c.curEvents) && a.readOk && a.processed
    ensures InitStage(c, a).1 == Once(true) && a.readDel ==>
      var d := InitStage(c, a).0;
      && d.curEvents == (if c.readActive then c.curEvents else c.curEvents + {E.RdHup}) - {E.In, E.Out}
      && d.curVersion == d.version == c.version
  {
    if c.readActive {
      WriteSucceedsIff(c, a);
    } else {
      var target := E.Target(c, true, {E.Out, E.RdHup});
      assert E.RdHup in target && E.Out in target;
      assert !E.Knows(c, target);
      WriteSucceedsIff(E.Told(c, target), a);
      assert target - {E.In, E.Out} == c.curEvents + {E.RdHup} - {E.In, E.Out};
    }
  }

  lemma WriteSucceedsIff(c: E.Conn, a: Answers)
    requires c.curVersion == c.version
    ensures WriteStage(c, a).1 == Once(true) <==>
      (a.writeAdd || E.Out in c.curEvents) && a.written && a.writeDel
      && (a.readAdd || E.In in c.curEvents) && a.readOk && a.processed
    ensures WriteStage(c, a).1 == Once(true) && a.readDel ==>
      var d := WriteStage(c, a).0;
      d.curEvents == c.curEvents - {E.In, E.Out} && d.curVersion == d.version == c.version
  {
    AskAdds(c, E.Out, a.writeAdd);
    var (d, added) := Ask(c, true, {E.Out}, a.writeAdd);
    AskRemoves(d, E.Out, a.writeDel);
    var (e, removed) := Ask(d, false, {E.Out}, a.writeDel);
    AskAdds(e, E.In, a.readAdd);
    var (f, watched) := Ask(e, true, {E.In}, a.readAdd);
    AskRemoves(f, E.In, a.readDel);
    hide Ask;
    if added && removed {
      assert E.In in e.curEvents <==> E.In in c.curEvents;
      if watched {
        assert c.curEvents + {E.Out} - {E.Out} + {E.In} - {E.In} == c.curEvents - {E.In, E.Out};
      }
    }
  }

  /** Asked for one event more, or for one less, in the version it has asked in before. */
  lemma AskAdds(c: E.Conn, e: E.Event, ok: bool)
    requires c.curVersion == c.version
    ensures var (d, took) := Ask(c, true, {e}, ok);
      && (took <==> ok || e in c.curEvents) && d.version == d.curVersion == c.version
      && d.curEvents == (if took then c.curEvents + {e} else c.curEvents)
  {
    assert e in c.curEvents <==> c.curEvents + {e} == c.curEvents;
  }

  lemma AskRemoves(c: E.Conn, e: E.Event, ok: bool)
    requires c.curVersion == c.version
    ensures var (d, took) := Ask(c, false, {e}, ok);
      && (took <==> ok || e !in c.curEvents) && d.version == d.curVersion == c.version
      && d.curEvents == (if took then c.curEvents - {e} else c.curEvents)
  {
    assert e !in c.curEvents - {e};
    assert e !in c.curEvents ==> c.curEvents - {e} == c.curEvents;
  }

  const NEW_CONN := E.Conn(1, {}, 0, false, false, false, Some(5))
  const REFUSED := Answers(true, true, true, true, false, true, true, true, true)

  /** The failing input: all goes well but that one call. The sub-request, which may not be
      retried, is finalised as failed and deleted, and then read for; the parent, whose only
      one it was, has been queued, and the program goes on with no request. */
  lemma RefusedRemovalCrashes(s: State, id: nat, next: Option<nat>, reading: Rest, retryMax: int)
    requires id in s.children && s.children.Keys == {id} && s.count == 2 && s.children[id].conn != s.conn
    requires retryMax <= s.children[id].retries && !reading.Again?
    ensures InitStage(NEW_CONN, REFUSED).1 == OnceAndRead
    ensures InitStage(NEW_CONN, REFUSED.(writeDel := true)).1 == Once(true)
    ensures InitStage(NEW_CONN, REFUSED.(written := false)).1 == OnceAndAgain
    ensures var t := ChildTurn(s, id, Twice(next, reading), retryMax);
      t.crashed && id !in t.children && t.count == 1 && t.delay == s.delay + [Current(s, s.conn)]
  {
    assert E.Target(NEW_CONN, true, {E.Out, E.RdHup}) == {E.Out, E.RdHup};
    assert {E.Out, E.RdHup} + {E.Out} == {E.Out, E.RdHup};
    assert {E.Out, E.RdHup} - {E.Out} != {E.Out, E.RdHup} by {
      assert E.Out !in {E.Out, E.RdHup} - {E.Out};
    }
  }

  // ---------- the stages as the program runs them ----------

  /** What the turn is to the request. `next` and `again` are what retries get, `reading` is how
      reading on ends. */
  function TurnOf(e: Ending, next: Option<nat>, again: Option<nat>, reading: Rest): Turn {
    match e
    case Once(ok) => Finished(ok, next)
    case OnceAndAgain => Twice(next, Again(again))
    case OnceAndRead => Twice(next, reading)
  }

  /** The program goes on with a request it has deleted, or with none, if and only if that
      removal is refused and the request is not retried or, when writing went well, not on the
      connection it was on. */
  lemma LosesRequestIff(s: State, id: nat, c: E.Conn, a: Answers, next: Option<nat>, again: Option<nat>,
                        reading: Rest, retryMax: int)
    requires id in s.children && E.FlagsFit(c) && !reading.Again?
    ensures LosesRequest(s, id, TurnOf(InitStage(c, a).1, next, again, reading), retryMax) <==>
      && RefusesRemoval(c, a)
      && (|| !NeedRetry(s.children[id], false, retryMax)
          || next.None?
          || (a.written && next.value != s.children[id].conn))
  {
    FinalisesOnceIff(c, a);
    if RefusesRemoval(c, a) {
      ReadsOnWhenWritten(c, a);
      LosesWhen(s, id, next, if a.written then reading else Again(again), retryMax);
    }
  }

  lemma ReadsOnWhenWritten(c: E.Conn, a: Answers)
    requires E.FlagsFit(c) && RefusesRemoval(c, a)
    ensures InitStage(c, a).1 == if a.written then OnceAndRead else OnceAndAgain
  {
    FinalisesOnceIff(c, a);
    var d := if c.readActive then c else E.Told(c, E.Target(c, true, {E.Out, E.RdHup}));
    if !c.readActive {
      var target := E.Target(c, true, {E.Out, E.RdHup});
      assert E.RdHup in target && E.Out in target;
      assert !E.Knows(c, target);
      assert InitStage(c, a) == WriteStage(d, a);
    }
    assert E.Out in d.curEvents ==> d.curEvents + {E.Out} == d.curEvents;
    assert Ask(d, true, {E.Out}, a.writeAdd).1;
  }

  /** Writing, by what it returns with and whether its deferred block finalises. */
  lemma WriteTurn(s: State, id: nat, c: E.Conn, a: Answers, next: Option<nat>, again: Option<nat>, reading: Rest,
                  retryMax: int)
    requires id in s.children
    ensures var (d, added) := Ask(c, true, {E.Out}, a.writeAdd);
      var (e, removed) := Ask(d, false, {E.Out}, a.writeDel);
      var onward, turn := added && a.written, TurnOf(WriteStage(c, a).1, next, again, reading);
      && WriteStage(c, a).0 == (if removed && onward then ReadStage(e, a).0 else e)
      && ChildTurn(s, id, turn, retryMax) ==
        if !removed then ChildTurn(s, id, Twice(next, if onward then reading else Again(again)), retryMax)
        else Finalize(s, id, onward && ReadStage(e, a).1.ok, next, retryMax)
  {
  }

  class CoCallbackUpstream {
    const cycle: Cycle
    const retryMax: int
    var record: E.Conn       // of the connection, as far as epoll goes, until it is given back

    constructor (cycle: Cycle, retryMax: int, record: E.Conn)
      ensures this.cycle == cycle && this.retryMax == retryMax && this.record == record
    {
      this.cycle, this.retryMax, this.record := cycle, retryMax, record;
    }

    method ModifyConnection(add: bool, events: set<E.Event>, ok: bool) returns (took: bool)
      modifies this`record
      ensures (record, took) == Ask(old(record), add, events, ok)
    {
      var target := E.Target(record, add, events);
      took := true;
      if target != record.curEvents || record.curVersion != record.version {
        took := ok;
        if ok {
          record := E.Told(record, target);
        }
      }
    }

    method UpstreamInit(id: nat, a: Answers, next: Option<nat>, again: Option<nat>, reading: Rest)
      requires id in cycle.upstreamRequests && !reading.Again?
      modifies this`record, cycle
      ensures record == InitStage(old(record), a).0
      ensures cycle.View() ==
        ChildTurn(old(cycle.View()), id, TurnOf(InitStage(old(record), a).1, next, again, reading), retryMax)
    {
      if !record.readActive {
        var took := ModifyConnection(true, {E.Out, E.RdHup}, a.initAdd);
        if !took || !a.connected {
          cycle.UpstreamFinalize(id, false, next, retryMax);
          return;
        }
      }
      UpstreamWrite(id, a, next, again, reading);
    }

    method UpstreamWrite(id: nat, a: Answers, next: Option<nat>, again: Option<nat>, reading: Rest)
      requires id in cycle.upstreamRequests && !reading.Again?
      modifies this`record, cycle
      ensures record == WriteStage(old(record), a).0
      ensures cycle.View() ==
        ChildTurn(old(cycle.View()), id, TurnOf(WriteStage(old(record), a).1, next, again, reading), retryMax)
    {
      ghost var s, c := cycle.View(), record;
      WriteTurn(s, id, c, a, next, again, reading, retryMax);
      hide *;
      var added := ModifyConnection(true, {E.Out}, a.writeAdd);
      // what is returned with: reading, or finalising as failed
      var onward := added && a.written;
      // the deferred block
      var removed := ModifyConnection(false, {E.Out}, a.writeDel);
      if !removed {
        FinalizeAndReturn(id, onward, next, again, reading);
      } else if onward {
        UpstreamRead(id, a, next);
      } else {
        cycle.UpstreamFinalize(id, false, next, retryMax);
      }
    }

    /** The deferred block finalises, and then what was set before runs. */
    method FinalizeAndReturn(id: nat, onward: bool, next: Option<nat>, again: Option<nat>, reading: Rest)
      requires id in cycle.upstreamRequests && !reading.Again?
      modifies cycle
      ensures cycle.View() ==
        ChildTurn(old(cycle.View()), id, Twice(next, if onward then reading else Again(again)), retryMax)
    {
      hide Finalize;
      var conn := cycle.upstreamRequests[id].conn;
      cycle.UpstreamFinalize(id, false, next, retryMax);
      if id !in cycle.upstreamRequests || (onward && cycle.upstreamRequests[id].conn != conn) {
        cycle.UseLostRequest();
      } else if !onward {
        cycle.UpstreamFinalize(id, false, again, retryMax);
      } else if reading.Read? {
        cycle.UpstreamFinalize(id, reading.ok, reading.next, retryMax);
      }
    }

    method UpstreamRead(id: nat, a: Answers, next: Option<nat>)
      requires id in cycle.upstreamRequests
      modifies this`record, cycle
      ensures record == ReadStage(old(record), a).0
      ensures cycle.View() == Finalize(old(cycle.View()), id, ReadStage(old(record), a).1.ok, next, retryMax)
    {
      var added := ModifyConnection(true, {E.In}, a.readAdd);
      var ok := added && a.readOk;
      var _ := ModifyConnection(false, {E.In}, a.readDel);
      if ok {
        UpstreamProcess(id, a, next);
      } else {
        cycle.UpstreamFinalize(id, false, next, retryMax);
      }
    }

    method UpstreamProcess(id: nat, a: Answers, next: Option<nat>)
      requires id in cycle.upstreamRequests
      modifies cycle
      ensures cycle.View() == Finalize(old(cycle.View()), id, a.processed, next, retryMax)
    {
      cycle.UpstreamFinalize(id, a.processed, next, retryMax);
    }
  }
}
