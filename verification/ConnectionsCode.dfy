/** The pool and the upstreams as the program keeps them, each method proved to be the
    operation that Connections reasons about. */
module ConnectionsCode {
  import opened Common
  import Backend
  import opened Connections

  class CoConnectionPool {
    var maxConnectionSize: int
    var curConnectionSize: int
    var connections: seq<Conn>
    var freeConnections: seq<nat>

    ghost predicate Valid()
      reads this
    {
      curConnectionSize == |connections| && Whole(View())
    }

    ghost function View(): Pool
      reads this
    {
      Pool(maxConnectionSize, connections, freeConnections)
    }

    /** The constructor and `init`. */
    constructor (minSize: int, maxSize: int)
      ensures Valid() && View() == StartPool(minSize, maxSize)
    {
      curConnectionSize, connections, freeConnections := 0, [], [];
      var least := if minSize < 4 then 4 else minSize;
      maxConnectionSize := (if maxSize > 65535 then 65535 else maxSize) + 3;
      new;
      var ok := ExpandConnections(least + 3);
    }

    method ExpandConnections(expandSize: nat) returns (ok: bool)
      requires Valid()
      modifies this
      ensures Valid() && View() == Expand(old(View()), expandSize)
      ensures ok == (|old(connections)| < maxConnectionSize)
      ensures !ok ==> View() == old(View())
    {
      if curConnectionSize >= maxConnectionSize {
        return false;
      }
      var start := curConnectionSize;
      curConnectionSize := curConnectionSize + expandSize;
      curConnectionSize := if curConnectionSize > maxConnectionSize then maxConnectionSize else curConnectionSize;
      var i := start;
      while i < curConnectionSize
        invariant start <= i <= curConnectionSize == Size(old(View()), expandSize)
        invariant maxConnectionSize == old(maxConnectionSize)
        invariant connections == old(connections) + seq(i - start, k => NEW)
        invariant freeConnections == old(freeConnections) + Built(start, i)
      {
        connections := connections + [NEW];
        freeConnections := freeConnections + [i];
        i := i + 1;
      }
      ok := true;
    }

    /** Both forms of get_connection; `socketOk` says that the socket could be set up. */
    method GetConnection(socketOk: bool, now: int) returns (got: Option<nat>)
      requires Valid()
      modifies this
      ensures Valid() && (View(), got) == PoolGet(old(View()), socketOk, now)
    {
      if freeConnections == [] {
        var _ := ExpandConnections(INCREMENT);
        if freeConnections == [] {
          return None;
        }
      }
      var id := freeConnections[0];
      if !socketOk {
        return None;
      }
      freeConnections := freeConnections[1..];
      connections := connections[id := connections[id].(started := now, use := connections[id].use + 1)];
      got := Some(id);
    }

    method FreeConnection(id: nat)
      requires Valid() && id < |connections|
      modifies this
      ensures Valid() && View() == PoolFree(old(View()), id)
    {
      var c := connections[id];
      c := c.(version := c.version + 1);
      c := c.(started := 0, owner := None, requests := 0);
      connections := connections[id := c];
      freeConnections := [id] + freeConnections;
    }
  }

  lemma {:induction false} RemovedAt(ids: seq<nat>, id: nat, i: nat)
    requires i < |ids| && ids[i] == id && id !in ids[i + 1..]
    ensures Removed(ids, id) == ids[..i] + ids[i + 1..]
    decreases |ids|
  {
    if i < |ids| - 1 {
      var front := ids[..|ids| - 1];
      assert ids[i + 1..] == front[i + 1..] + [ids[|ids| - 1]];
      RemovedAt(front, id, i);
    }
  }

  class CoUpstream {
    const name: nat
    const pool: CoConnectionPool
    const maxConnections: int
    const connectionMaxRequest: int
    const connectionMaxTime: int
    var curConnectionSize: int
    var reuseConnections: map<string, seq<nat>>

    ghost function View(): Upstream
      reads this
    {
      Upstream(maxConnections, connectionMaxRequest, connectionMaxTime, curConnectionSize, reuseConnections)
    }

    constructor (name: nat, pool: CoConnectionPool, maxConnections: int, maxRequest: int, maxTime: int)
      ensures View() == Upstream(maxConnections, maxRequest, maxTime, 0, map[])
      ensures this.name == name && this.pool == pool
    {
      this.name, this.pool, this.maxConnections := name, pool, maxConnections;
      connectionMaxRequest, connectionMaxTime := maxRequest, maxTime;
      curConnectionSize, reuseConnections := 0, map[];
    }

    /** `key` is the server key of the back end chosen, if one was. */
    method GetConnection(key: Option<string>, socketOk: bool, now: int) returns (got: Option<nat>)
      requires pool.Valid()
      requires key.Some? && Idle(View(), key.value) != [] ==> Idle(View(), key.value)[0] < |pool.connections|
      modifies this, pool
      ensures pool.Valid()
      ensures (pool.View(), View(), got) == UpstreamGet(old(pool.View()), old(View()), name, key, socketOk, now)
    {
      if key.None? {
        return None;
      }
      if key.value !in reuseConnections {
        reuseConnections := reuseConnections[key.value := []];
      }
      got := None;
      var idle := reuseConnections[key.value];
      assert idle == [] ==> reuseConnections == old(reuseConnections)[key.value := []];
      if idle != [] {
        got := Some(idle[0]);
        reuseConnections := reuseConnections[key.value := idle[1..]];
        var c := pool.connections[idle[0]];
        pool.connections := pool.connections[idle[0] := c.(use := c.use + 1)];
      }
      if got.None? {
        if curConnectionSize >= maxConnections {
          return None;
        }
        got := pool.GetConnection(socketOk, now);
        if got.None? {
          return None;
        }
        curConnectionSize := curConnectionSize + 1;
      }
      var c := pool.connections[got.value];
      pool.connections := pool.connections[got.value := c.(owner := Some(Owner(name, key.value)))];
      assert idle != [] ==>
        var was := old(pool.connections);
        pool.connections ==
          was[idle[0] := was[idle[0]].(owner := Some(Owner(name, key.value)), use := was[idle[0]].use + 1)];
    }

    /** Takes the connection off its idle list, if it is there. */
    method RemoveIdle(key: string, id: nat) returns (found: bool)
      modifies this`reuseConnections
      ensures found == (id in Idle(old(View()), key))
      ensures var idle := Idle(old(View()), key);
        View() == old(View()).(idle := old(reuseConnections)[key := if found then Removed(idle, id) else idle])
    {
      if key !in reuseConnections {
        reuseConnections := reuseConnections[key := []];
      }
      var idle := reuseConnections[key];
      var i := |idle|;
      while i > 0
        invariant 0 <= i <= |idle| && id !in idle[i..]
        invariant View() == old(View()).(idle := old(reuseConnections)[key := idle])
      {
        i := i - 1;
        if idle[i] == id {
          assert old(reuseConnections)[key := idle][key := idle[..i] + idle[i + 1..]]
              == old(reuseConnections)[key := idle[..i] + idle[i + 1..]];
          RemovedAt(idle, id, i);
          reuseConnections := reuseConnections[key := idle[..i] + idle[i + 1..]];
          return true;
        }
      }
      found := false;
    }

    /** `charged` says that the back end's failure counter was raised. */
    method FreeConnection(id: nat, code: Code, now: int) returns (charged: bool)
      requires pool.Valid() && id < |pool.connections| && pool.connections[id].owner.Some?
      modifies this, pool
      ensures pool.Valid()
      ensures (pool.View(), View(), charged) == UpstreamFree(old(pool.View()), old(View()), id, code, now)
    {
      var c := pool.connections[id];
      var key, closeConnection := c.owner.value.key, false;
      charged := false;
      if code == Exception {
        closeConnection := RemoveIdle(key, id);
      }
      if !closeConnection {
        if code != Fine {
          charged, closeConnection := true, true;
        }
      }
      if !closeConnection {
        if connectionMaxRequest != 0 && c.requests >= connectionMaxRequest {
          closeConnection := true;
        }
      }
      if !closeConnection {
        if connectionMaxTime != 0 {
          if Backend.Int32(now - c.started) >= connectionMaxTime {
            closeConnection := true;
          }
        }
      }
      if closeConnection {
        curConnectionSize := curConnectionSize - 1;
        pool.FreeConnection(id);
        return;
      }
      pool.connections := pool.connections[id := c.(version := c.version + 1)];
      var idle := if key in reuseConnections then reuseConnections[key] else [];
      reuseConnections := reuseConnections[key := [id] + idle];
    }
  }
}
