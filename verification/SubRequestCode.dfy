/** The operations on sub-requests as the program performs them, field by field, each
    proved to be the transition that SubRequest reasons about. */
module SubRequestCode {
  import opened Common
  import opened SubRequest

  // ---------- killing the sub-requests one by one ----------

  ghost function Killed(s: State, ids: seq<nat>): map<nat, Child> {
    map id | id in s.children :: if id in ids then s.children[id].(parentDying := true) else s.children[id]
  }

  /** The state once the first `i` of them are flagged and queued. */
  ghost function KilledUpTo(s: State, ids: seq<nat>, i: nat): State
    requires Lists(s, ids) && i <= |ids|
  {
    s.(children := Killed(s, ids[..i]), delay := s.delay + Items(s, ids[..i]))
  }

  lemma KilledNone(s: State, ids: seq<nat>)
    requires Lists(s, ids)
    ensures KilledUpTo(s, ids, 0) == s
  {
  }

  lemma KilledOneMore(s: State, ids: seq<nat>, i: nat)
    requires Lists(s, ids) && i < |ids|
    ensures ids[i] in KilledUpTo(s, ids, i).children
    ensures var t := KilledUpTo(s, ids, i); var c := t.children[ids[i]].(parentDying := true);
      KilledUpTo(s, ids, i + 1) ==
        t.(children := t.children[ids[i] := c], delay := t.delay + [Current(t, c.conn)])
  {
    var front, id := ids[..i], ids[i];
    assert ids[..i + 1] == front + [id] && (front + [id])[..i] == front;
    assert id in s.children && Items(s, front + [id]) == Items(s, front) + [Current(s, s.children[id].conn)];
    hide Items;
    assert Killed(s, front + [id]) == Killed(s, front)[id := s.children[id].(parentDying := true)];
  }

  lemma ClosingOneMore(s: State, conns: seq<nat>, i: nat)
    requires i < |conns|
    ensures Closing(s, conns[..i + 1]) ==
      var t := Closing(s, conns[..i]);
      t.(dying := t.dying || s.conn == conns[i], delay := t.delay + [Current(s, conns[i])])
  {
    assert conns[..i + 1] == conns[..i] + [conns[i]];
  }

  class Cycle {
    var phase: Phase
    var conn: nat
    var flagDying: bool
    var count: int
    var upstreamRequests: map<nat, Child>
    var versions: map<nat, nat>
    var delayConnections: seq<Item>
    var requestIds: nat
    var flagThirdFuncBlocking: bool    // asleep in a hooked call, or waiting for a mutex
    var flagUseBlockConn: bool         // waiting for a socket of its own
    var blockConnDying: bool           // m_flagDying of the twin that holds that socket
    var popped: nat                    // entries taken off the delay queue, for the children's `since`
    ghost var batch: nat
    ghost var queued: nat
    ghost var finalised: seq<nat>
    ghost var crashed: bool

    ghost function View(): State
      reads this
    {
      State(phase, conn, flagDying, count, upstreamRequests, versions, delayConnections, popped,
            batch, queued, requestIds, finalised, crashed)
    }

    constructor (conn: nat, versions: map<nat, nat>)
      ensures View() == Initial(conn, versions)
    {
      this.conn, this.versions := conn, versions;
      phase, flagDying, count := Working, false, 1;
      upstreamRequests, delayConnections, requestIds := map[], [], 0;
      batch, queued, finalised, popped, crashed := 0, 0, [], 0, false;
      flagThirdFuncBlocking, flagUseBlockConn, blockConnDying := false, false, false;
    }

    /** Blocked in user code the parent is not in run_upstreams, nor between add and run. */
    ghost predicate BlockedAlone()
      reads this
    {
      flagThirdFuncBlocking || flagUseBlockConn ==> phase == Working && upstreamRequests == map[]
    }

    method Version(conn: nat) returns (version: nat)
      ensures version == SubRequest.Version(View(), conn)
    {
      version := if conn in versions then versions[conn] else 0;
    }

    method FreeConnection(conn: nat)
      modifies this`versions
      ensures View() == Free(old(View()), conn)
    {
      var version := Version(conn);
      versions := versions[conn := version + 1];
    }

    method Push(conn: nat)
      modifies this`delayConnections
      ensures View() == old(View()).(delay := old(delayConnections) + [Current(old(View()), conn)])
    {
      var version := Version(conn);
      delayConnections := delayConnections + [Item(conn, version)];
    }

    /** `next` is the connection the upstream gives out, if it has one. */
    method AddUpstream(next: Option<nat>) returns (ok: bool)
      modifies this
      ensures ok == next.Some?
      ensures View() == if next.Some? then Add(old(View()), next.value) else old(View())
    {
      if next.None? {
        return false;
      }
      var version := Version(next.value);
      var child := Child(next.value, version, 0, false, popped + |delayConnections|);
      upstreamRequests := upstreamRequests[requestIds := child];
      requestIds, batch := requestIds + 1, batch + 1;
      count := count + 1;
      Push(next.value);
      ok := true;
    }

    method UpstreamFinalizeRequest(id: nat)
      modifies this
      ensures View() == FinalizeRequest(old(View()), id)
    {
      upstreamRequests := upstreamRequests - {id};
      count := count - 1;
      finalised := finalised + [id];
      if count == 1 {
        Push(conn);
        queued := queued + 1;
      }
    }

    method RetryUpstream(id: nat, next: Option<nat>)
      requires id in upstreamRequests
      modifies this
      ensures View() ==
        var s := old(View());
        match next
        case None => FinalizeRequest(s, id)
        case Some(conn) =>
          var c := Child(conn, SubRequest.Version(s, conn), s.children[id].retries + 1, false, Pushed(s));
          s.(children := s.children[id := c],
             delay := s.delay + [Current(s, conn)])
    {
      var retries := upstreamRequests[id].retries + 1;
      if next.None? {
        UpstreamFinalizeRequest(id);
      } else {
        var version := Version(next.value);
        var child := Child(next.value, version, retries, false, popped + |delayConnections|);
        upstreamRequests := upstreamRequests[id := child];
        Push(next.value);
      }
    }

    /** The program reads or writes a request it has deleted, or one through NULL. */
    method UseLostRequest()
      modifies this`crashed
      ensures View() == old(View()).(crashed := true)
    {
      crashed := true;
    }

    method UpstreamFinalize(id: nat, ok: bool, next: Option<nat>, retryMax: int)
      requires id in upstreamRequests
      modifies this
      ensures View() == Finalize(old(View()), id, ok, next, retryMax)
    {
      var child, needRetry := upstreamRequests[id], false;
      if !child.parentDying {
        if !ok && retryMax > child.retries {
          needRetry := true;
        }
      }
      if !needRetry {
        UpstreamFinalizeRequest(id);
        FreeConnection(child.conn);
      } else {
        FreeConnection(child.conn);
        RetryUpstream(id, next);
      }
    }

    method KillUpstream(id: nat)
      requires id in upstreamRequests
      modifies this`upstreamRequests, this`delayConnections
      ensures var s := old(View()); var c := s.children[id].(parentDying := true);
        View() == s.(children := s.children[id := c], delay := s.delay + [Current(s, c.conn)])
    {
      upstreamRequests := upstreamRequests[id := upstreamRequests[id].(parentDying := true)];
      Push(upstreamRequests[id].conn);
    }

    /** `ids` is the order the map is walked in. */
    method KillUpstreams(ids: seq<nat>)
      requires Lists(View(), ids)
      modifies this`upstreamRequests, this`delayConnections
      ensures View() == KilledUpTo(old(View()), ids, |ids|)
    {
      ghost var s := View();
      KilledNone(s, ids);
      var i := 0;
      while i < |ids|
        invariant i <= |ids|
        invariant View() == KilledUpTo(s, ids, i)
      {
        KilledOneMore(s, ids, i);
        hide *;
        KillUpstream(ids[i]);
        i := i + 1;
      }
    }

    /** event_exception for the parent. A dying parent asleep in a hooked call is left asleep
        until that call returns; one that waits for a socket of its own has the socket's twin
        marked too and is resumed; one with sub-requests has them killed and is not. */
    method EventException(timedOut: bool, pendingEof: bool, ids: seq<nat>) returns (exception: bool)
      requires Lists(View(), ids) && BlockedAlone()
      modifies this`flagDying, this`blockConnDying, this`upstreamRequests, this`delayConnections
      ensures flagDying == (old(flagDying) || timedOut || pendingEof)
      ensures exception == (flagDying && (flagThirdFuncBlocking || old(upstreamRequests) != map[]))
      ensures blockConnDying ==
        (old(blockConnDying) || (flagDying && flagUseBlockConn && !flagThirdFuncBlocking))
      ensures var s := old(View()).(dying := flagDying);
        View() == if exception then ParentDispatched(s, ids) else s
    {
      if !(timedOut || pendingEof || flagDying) {
        return false;
      }
      flagDying := true;
      if flagThirdFuncBlocking {
        return true;
      }
      if flagUseBlockConn {
        blockConnDying := true;
        return false;
      }
      if upstreamRequests == map[] {
        return false;
      }
      ghost var s := View();
      KillUpstreams(ids);
      assert ids[..|ids|] == ids;
      assert Killed(s, ids) == map id | id in s.children :: s.children[id].(parentDying := true);
      exception := true;
    }

    /** func_dispatcher for the parent; `resumed` says that its coroutine is switched to. */
    method DispatchParent(timedOut: bool, pendingEof: bool, ids: seq<nat>) returns (resumed: bool)
      requires Lists(View(), ids) && BlockedAlone()
      modifies this
      ensures View() == ParentDispatched(old(View()).(dying := old(flagDying) || timedOut || pendingEof), ids)
      ensures flagDying ==> (resumed <==> !flagThirdFuncBlocking && old(upstreamRequests) == map[])
      ensures !flagDying ==> resumed
      ensures flagThirdFuncBlocking == old(flagThirdFuncBlocking) && flagUseBlockConn == old(flagUseBlockConn)
    {
      var exception := EventException(timedOut, pendingEof, ids);
      if exception {
        return false;
      }
      if phase == Waiting {
        phase, batch, queued := Working, 0, 0;
      }
      resumed := true;
    }

    /** close_all_connection: `conns` are the connections of this request that have a socket
        open. The flag stands for m_flagPendingEof, which the parent's next dispatch finds. */
    method CloseAllConnection(conns: seq<nat>)
      modifies this`flagDying, this`delayConnections
      ensures View() == Closing(old(View()), conns)
    {
      ghost var s := View();
      var i := 0;
      while i < |conns|
        invariant i <= |conns|
        invariant View() == Closing(s, conns[..i])
      {
        ClosingOneMore(s, conns, i);
        if conns[i] == conn {
          flagDying := true;
        }
        Push(conns[i]);
        i := i + 1;
      }
      assert conns[..i] == conns;
    }
  }
}
