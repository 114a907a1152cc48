/** Who holds each connection: the pool's free list, the idle lists of the upstreams, or a
    caller. Connections are named by their place in the pool's vector. */
module Connections {
  import opened Common
  import Backend

  datatype Owner = Owner(upstream: nat, key: string)

  /** `use` counts the uses the connection has been put to; the program has only the
      version. */
  datatype Conn = Conn(version: nat, requests: nat, started: int, owner: Option<Owner>, use: nat)

  datatype Pool = Pool(maxSize: int, conns: seq<Conn>, free: seq<nat>)

  datatype Upstream = Upstream(maxSize: int, maxRequest: int, maxTime: int,
                               cur: int, idle: map<string, seq<nat>>)

  datatype Code = Fine | Failed | Exception

  const INCREMENT: nat := 16

  // ---------- the pool ----------

  function Size(p: Pool, more: nat): nat {
    if |p.conns| >= p.maxSize then |p.conns|
    else if |p.conns| + more > p.maxSize then p.maxSize
    else |p.conns| + more
  }

  function Built(from: nat, to: nat): (ids: seq<nat>)
    requires from <= to
    ensures |ids| == to - from
    ensures forall i :: 0 <= i < |ids| ==> ids[i] == from + i
  {
    seq(to - from, i requires 0 <= i => from + i)
  }

  const NEW := Conn(0, 0, 0, None, 0)

  function Expand(p: Pool, more: nat): Pool {
    p.(conns := p.conns + seq(Size(p, more) - |p.conns|, i => NEW),
       free := p.free + Built(|p.conns|, Size(p, more)))
  }

  function Ready(p: Pool): Pool {
    if p.free == [] then Expand(p, INCREMENT) else p
  }

  function Begun(c: Conn, now: int): Conn {
    c.(started := now, use := c.use + 1)
  }

  predicate Whole(p: Pool) {
    forall i :: 0 <= i < |p.free| ==> p.free[i] < |p.conns|
  }

  /** The front of the free list leaves it only once its socket is set up. */
  function PoolGet(p: Pool, socketOk: bool, now: int): (r: (Pool, Option<nat>))
    requires Whole(p)
    ensures Whole(r.0) && |p.conns| <= |r.0.conns| && (r.1.Some? ==> r.1.value < |r.0.conns|)
  {
    var q := Ready(p);
    if q.free == [] || !socketOk then (q, None) else
    var id := q.free[0];
    (q.(free := q.free[1..], conns := q.conns[id := Begun(q.conns[id], now)]), Some(id))
  }

  function Cleared(c: Conn): Conn {
    Conn(c.version + 1, 0, 0, None, c.use)
  }

  function PoolFree(p: Pool, id: nat): Pool
    requires id < |p.conns|
  {
    p.(conns := p.conns[id := Cleared(p.conns[id])], free := [id] + p.free)
  }

  // ---------- an upstream ----------

  function Idle(u: Upstream, key: string): seq<nat> {
    if key in u.idle then u.idle[key] else []
  }

  /** Asking for a connection of a back end, `key` none when there is no back end. */
  function UpstreamGet(p: Pool, u: Upstream, name: nat, key: Option<string>, socketOk: bool, now: int)
    : (r: (Pool, Upstream, Option<nat>))
    requires Whole(p)
    requires key.Some? && Idle(u, key.value) != [] ==> Idle(u, key.value)[0] < |p.conns|
    ensures r.2.Some? ==> r.2.value < |r.0.conns|
  {
    if key.None? then (p, u, None) else
    var idle, owner := Idle(u, key.value), Some(Owner(name, key.value));
    if idle != [] then
      var id := idle[0];
      (p.(conns := p.conns[id := p.conns[id].(owner := owner, use := p.conns[id].use + 1)]),
       u.(idle := u.idle[key.value := idle[1..]]), Some(id))
    else
    var v := u.(idle := u.idle[key.value := []]);
    if u.cur >= u.maxSize then (p, v, None) else
    var (q, got) := PoolGet(p, socketOk, now);
    if got.None? then (q, v, None)
    else (q.(conns := q.conns[got.value := q.conns[got.value].(owner := owner)]), v.(cur := u.cur + 1), got)
  }

  /** The list without the last place where `id` stands. */
  function Removed(ids: seq<nat>, id: nat): seq<nat> {
    if ids == [] then []
    else if ids[|ids| - 1] == id then ids[..|ids| - 1]
    else Removed(ids[..|ids| - 1], id) + [ids[|ids| - 1]]
  }

  predicate WornOut(u: Upstream, c: Conn, now: int) {
    || (u.maxRequest != 0 && c.requests >= u.maxRequest)
    || (u.maxTime != 0 && Backend.Int32(now - c.started) >= u.maxTime)
  }

  function Close(p: Pool, u: Upstream, id: nat): (Pool, Upstream)
    requires id < |p.conns|
  {
    (PoolFree(p, id), u.(cur := u.cur - 1))
  }

  /** Handing a connection back; the flag says that the back end is charged with a failure. */
  function UpstreamFree(p: Pool, u: Upstream, id: nat, code: Code, now: int): (Pool, Upstream, bool)
    requires id < |p.conns| && p.conns[id].owner.Some?
  {
    var key := p.conns[id].owner.value.key;
    var idle := Idle(u, key);
    if code == Exception && id in idle then
      var (q, v) := Close(p, u.(idle := u.idle[key := Removed(idle, id)]), id);
      (q, v, false)
    else
      var v := if code == Exception then u.(idle := u.idle[key := idle]) else u;
      if code != Fine || WornOut(v, p.conns[id], now) then
        var (q, w) := Close(p, v, id);
        (q, w, code != Fine)
      else
        (p.(conns := p.conns[id := p.conns[id].(version := p.conns[id].version + 1)]),
         v.(idle := v.idle[key := [id] + idle]), false)
  }

  // ---------- all of them together ----------

  datatype State = State(pool: Pool, upstreams: seq<Upstream>, inUse: set<nat>)

  datatype Action =
    | Accept(socketOk: bool, now: int)
    | ServerRequest(id: nat)
    | ServerFree(id: nat, ok: bool)
    | UpstreamTake(upstream: nat, key: Option<string>, socketOk: bool, now: int, starts: bool)
    | UpstreamBack(id: nat, code: Code, now: int)

  /** Callers hand back what they hold, and an idle connection only on an exception. */
  predicate Enabled(s: State, a: Action) {
    match a
    case Accept(_, _) => true
    case ServerRequest(id) => id in s.inUse && id < |s.pool.conns| && s.pool.conns[id].owner.None?
    case ServerFree(id, ok) => id in s.inUse && id < |s.pool.conns| && s.pool.conns[id].owner.None?
    case UpstreamTake(name, key, _, _, _) => name < |s.upstreams|
    case UpstreamBack(id, code, _) =>
      && id < |s.pool.conns| && s.pool.conns[id].owner.Some?
      && s.pool.conns[id].owner.value.upstream < |s.upstreams|
      && (id in s.inUse || code == Exception)
  }

  function Requested(p: Pool, id: nat): Pool
    requires id < |p.conns|
  {
    p.(conns := p.conns[id := p.conns[id].(requests := p.conns[id].requests + 1)])
  }

  function Take(s: State, name: nat, key: Option<string>, socketOk: bool, now: int, starts: bool): State
    requires name < |s.upstreams| && Whole(s.pool)
    requires key.Some? && Idle(s.upstreams[name], key.value) != [] ==>
      Idle(s.upstreams[name], key.value)[0] < |s.pool.conns|
  {
    var (p, u, got) := UpstreamGet(s.pool, s.upstreams[name], name, key, socketOk, now);
    var t := State(p, s.upstreams[name := u], s.inUse);
    if got.None? then t
    else t.(pool := if starts then Requested(p, got.value) else p, inUse := s.inUse + {got.value})
  }

  function Back(s: State, id: nat, code: Code, now: int): State
    requires Enabled(s, UpstreamBack(id, code, now))
  {
    var name := s.pool.conns[id].owner.value.upstream;
    var (p, u, _) := UpstreamFree(s.pool, s.upstreams[name], id, code, now);
    State(p, s.upstreams[name := u], s.inUse - {id})
  }

  function Accepted(s: State, socketOk: bool, now: int): State
    requires Whole(s.pool)
  {
    var (p, got) := PoolGet(s.pool, socketOk, now);
    State(p, s.upstreams, if got.Some? then s.inUse + {got.value} else s.inUse)
  }

  function ServerFreed(s: State, id: nat, ok: bool): State
    requires id < |s.pool.conns|
  {
    if !ok then State(PoolFree(s.pool, id), s.upstreams, s.inUse - {id}) else
    var c := s.pool.conns[id];
    s.(pool := s.pool.(conns := s.pool.conns[id := c.(version := c.version + 1, use := c.use + 1)]))
  }

  ghost function Do(s: State, a: Action): State
    requires Inv(s) && Enabled(s, a)
  {
    match a
    case Accept(socketOk, now) => Accepted(s, socketOk, now)
    case ServerRequest(id) => s.(pool := Requested(s.pool, id))
    case ServerFree(id, ok) => ServerFreed(s, id, ok)
    case UpstreamTake(name, key, socketOk, now, starts) =>
      assert key.Some? ==> IdleListFits(s, name, key.value);
      Take(s, name, key, socketOk, now, starts)
    case UpstreamBack(id, code, now) => Back(s, id, code, now)
  }

  // ---------- what every run keeps ----------

  predicate Distinct(ids: seq<nat>) {
    forall i, j :: 0 <= i < j < |ids| ==> ids[i] != ids[j]
  }

  ghost predicate FreeFits(s: State) {
    && |s.pool.conns| <= (if s.pool.maxSize > 0 then s.pool.maxSize else 0)
    && Distinct(s.pool.free)
    && forall i :: 0 <= i < |s.pool.free| ==>
         var id := s.pool.free[i];
         id < |s.pool.conns| && id !in s.inUse && s.pool.conns[id].owner.None? && s.pool.conns[id].requests == 0
  }

  ghost predicate IdleListFits(s: State, name: nat, key: string)
    requires name < |s.upstreams|
  {
    var ids := Idle(s.upstreams[name], key);
    && Distinct(ids)
    && forall i :: 0 <= i < |ids| ==>
         ids[i] < |s.pool.conns| && ids[i] !in s.inUse && s.pool.conns[ids[i]].owner == Some(Owner(name, key))
         && (s.upstreams[name].maxRequest > 0 ==> s.pool.conns[ids[i]].requests < s.upstreams[name].maxRequest)
  }

  ghost predicate IdleFits(s: State) {
    forall name, key :: 0 <= name < |s.upstreams| ==> IdleListFits(s, name, key)
  }

  ghost predicate UseFits(s: State) {
    forall id :: id in s.inUse ==>
      id < |s.pool.conns| && (s.pool.conns[id].owner.Some? ==>
        var name := s.pool.conns[id].owner.value.upstream;
        name < |s.upstreams| && (s.upstreams[name].maxRequest > 0 ==>
          s.pool.conns[id].requests <= s.upstreams[name].maxRequest))
  }

  /** A connection nobody uses is in the free list, or in the idle list it belongs to. */
  ghost predicate Kept(s: State, id: nat)
    requires id < |s.pool.conns|
  {
    match s.pool.conns[id].owner
    case None => id in s.pool.free
    case Some(o) => o.upstream < |s.upstreams| && id in Idle(s.upstreams[o.upstream], o.key)
  }

  ghost predicate Covered(s: State) {
    forall id :: 0 <= id < |s.pool.conns| ==> id in s.inUse || Kept(s, id)
  }

  ghost predicate OwnedBy(c: Conn, name: nat) {
    c.owner.Some? && c.owner.value.upstream == name
  }

  ghost function Owned(conns: seq<Conn>, name: nat): set<nat> {
    set id | 0 <= id < |conns| && OwnedBy(conns[id], name)
  }

  ghost predicate CountFits(s: State) {
    forall name :: 0 <= name < |s.upstreams| ==>
      && s.upstreams[name].cur == |Owned(s.pool.conns, name)|
      && (s.upstreams[name].cur == 0 || s.upstreams[name].cur <= s.upstreams[name].maxSize)
  }

  ghost predicate Inv(s: State) {
    FreeFits(s) && IdleFits(s) && UseFits(s) && Covered(s) && CountFits(s)
  }

  // ---------- the small steps that operations are made of ----------

  /** The front of the free list goes to a caller. */
  ghost function Fronted(s: State, now: int): State
    requires s.pool.free != [] && Whole(s.pool)
  {
    var id := s.pool.free[0];
    s.(pool := s.pool.(free := s.pool.free[1..], conns := s.pool.conns[id := Begun(s.pool.conns[id], now)]),
       inUse := s.inUse + {id})
  }

  ghost function WithConn(s: State, id: nat, c: Conn): State
    requires id < |s.pool.conns|
  {
    s.(pool := s.pool.(conns := s.pool.conns[id := c]))
  }

  ghost function WithIdle(s: State, name: nat, key: string, ids: seq<nat>): State
    requires name < |s.upstreams|
  {
    var u := s.upstreams[name];
    s.(upstreams := s.upstreams[name := u.(idle := u.idle[key := ids])])
  }

  ghost function WithCur(s: State, name: nat, cur: int): State
    requires name < |s.upstreams|
  {
    s.(upstreams := s.upstreams[name := s.upstreams[name].(cur := cur)])
  }

  lemma OwnedSame(a: seq<Conn>, b: seq<Conn>, name: nat)
    requires |a| <= |b|
    requires forall id :: 0 <= id < |a| ==> OwnedBy(a[id], name) == OwnedBy(b[id], name)
    requires forall id :: |a| <= id < |b| ==> !OwnedBy(b[id], name)
    ensures Owned(a, name) == Owned(b, name)
  {
  }

  lemma CountSame(s: State, t: State)
    requires CountFits(s) && s.upstreams == t.upstreams && |s.pool.conns| <= |t.pool.conns|
    requires forall id :: 0 <= id < |s.pool.conns| ==> s.pool.conns[id].owner == t.pool.conns[id].owner
    requires forall id :: |s.pool.conns| <= id < |t.pool.conns| ==> t.pool.conns[id].owner.None?
    ensures CountFits(t)
  {
    forall name | 0 <= name < |s.upstreams|
      ensures Owned(s.pool.conns, name) == Owned(t.pool.conns, name)
    {
      OwnedSame(s.pool.conns, t.pool.conns, name);
    }
  }

  lemma ReadyKeeps(s: State)
    requires Inv(s)
    ensures Inv(s.(pool := Ready(s.pool)))
  {
    var t := s.(pool := Ready(s.pool));
    if s.pool.free == [] {
      assert FreeFits(t);
      assert UseFits(t);
      assert IdleFits(t) by {
        forall name, key | 0 <= name < |s.upstreams| ensures IdleListFits(t, name, key) {
          assert IdleListFits(s, name, key);
        }
      }
      forall id | 0 <= id < |t.pool.conns| ensures id in t.inUse || Kept(t, id) {
        if id >= |s.pool.conns| {
          assert t.pool.free[id - |s.pool.conns|] == id;
        } else {
          assert id in s.inUse || Kept(s, id);
        }
      }
      CountSame(s, t);
    }
  }

  lemma FrontedKeeps(s: State, now: int)
    requires Inv(s) && s.pool.free != []
    ensures Inv(Fronted(s, now))
  {
    var t, id := Fronted(s, now), s.pool.free[0];
    assert UseFits(t);
    assert FreeFits(t);
    assert IdleFits(t) by {
      forall name, key | 0 <= name < |s.upstreams| ensures IdleListFits(t, name, key) {
        assert IdleListFits(s, name, key);
      }
    }
    forall other | 0 <= other < |t.pool.conns| ensures other in t.inUse || Kept(t, other) {
      assert other in s.inUse || Kept(s, other);
      assert s.pool.free == [id] + t.pool.free;
    }
    CountSame(s, t);
  }

  /** A caller's connection changes, but not whose it is. */
  lemma ChangedKeeps(s: State, id: nat, c: Conn)
    requires Inv(s) && id in s.inUse && c.owner == s.pool.conns[id].owner
    requires c.owner.Some? && s.upstreams[c.owner.value.upstream].maxRequest > 0 ==>
      c.requests <= s.upstreams[c.owner.value.upstream].maxRequest
    ensures Inv(WithConn(s, id, c))
  {
    var t := WithConn(s, id, c);
    assert FreeFits(t);
    assert UseFits(t);
    assert IdleFits(t) by {
      forall name, key | 0 <= name < |s.upstreams| ensures IdleListFits(t, name, key) {
        assert IdleListFits(s, name, key);
      }
    }
    forall other | 0 <= other < |t.pool.conns| ensures other in t.inUse || Kept(t, other) {
      assert other in s.inUse || Kept(s, other);
    }
    CountSame(s, t);
  }

  /** One connection more or less is an upstream's, and its counter follows. */
  lemma CountFollows(s: State, t: State, id: nat, name: nat)
    requires CountFits(s) && name < |s.upstreams| == |t.upstreams| && id < |s.pool.conns| == |t.pool.conns|
    requires forall j :: 0 <= j < |s.pool.conns| && j != id ==> t.pool.conns[j].owner == s.pool.conns[j].owner
    requires forall n :: 0 <= n < |s.upstreams| && n != name ==> t.upstreams[n] == s.upstreams[n]
    requires forall n :: n != name ==> OwnedBy(s.pool.conns[id], n) == OwnedBy(t.pool.conns[id], n)
    requires var u, v := s.upstreams[name], t.upstreams[name];
      && v.maxSize == u.maxSize && (v.cur == 0 || v.cur <= v.maxSize || v.cur < u.cur)
      && v.cur == u.cur + (if OwnedBy(t.pool.conns[id], name) then 1 else 0)
                       - (if OwnedBy(s.pool.conns[id], name) then 1 else 0)
    ensures CountFits(t)
  {
    forall n | 0 <= n < |s.upstreams| ensures t.upstreams[n].cur == |Owned(t.pool.conns, n)| {
      OneApart(Owned(s.pool.conns, n), Owned(t.pool.conns, n), id);
    }
  }

  lemma OneApart(a: set<nat>, b: set<nat>, id: nat)
    requires forall j :: j != id ==> (j in a <==> j in b)
    ensures |b| == |a| + (if id in b then 1 else 0) - (if id in a then 1 else 0)
  {
    assert b - {id} == a - {id};
    assert |a| == |a - {id}| + (if id in a then 1 else 0);
    assert |b| == |b - {id}| + (if id in b then 1 else 0);
  }

  /** A connection from the pool becomes an upstream's. */
  lemma OwnedKeeps(s: State, id: nat, name: nat, key: string)
    requires Inv(s) && id in s.inUse && s.pool.conns[id].owner.None? && s.pool.conns[id].requests == 0
    requires name < |s.upstreams| && s.upstreams[name].cur < s.upstreams[name].maxSize
    ensures Inv(WithCur(WithConn(s, id, s.pool.conns[id].(owner := Some(Owner(name, key)))),
                        name, s.upstreams[name].cur + 1))
  {
    var c := s.pool.conns[id].(owner := Some(Owner(name, key)));
    var t := WithCur(WithConn(s, id, c), name, s.upstreams[name].cur + 1);
    CountFollows(s, t, id, name);
    hide CountFits, Owned;
    assert FreeFits(t);
    assert UseFits(t);
    assert IdleFits(t) by {
      forall n, k | 0 <= n < |s.upstreams| ensures IdleListFits(t, n, k) {
        assert IdleListFits(s, n, k);
      }
    }
    forall other | 0 <= other < |t.pool.conns| ensures other in t.inUse || Kept(t, other) {
      assert other in s.inUse || Kept(s, other);
    }
  }

  lemma ClosedCovered(s: State, id: nat, name: nat)
    requires Covered(s) && id < |s.pool.conns| && name < |s.upstreams|
    ensures Covered(Closed(s, id, name))
  {
    var t := Closed(s, id, name);
    assert t.pool.free == [id] + s.pool.free;
    forall other | 0 <= other < |t.pool.conns| ensures other in t.inUse || Kept(t, other) {
      assert other in s.inUse || Kept(s, other);
    }
  }

  /** An upstream's connection goes back to the pool. */
  lemma ClosedKeeps(s: State, id: nat, name: nat)
    requires Inv(s) && id in s.inUse && OwnedBy(s.pool.conns[id], name)
    ensures Inv(Closed(s, id, name))
  {
    var t := Closed(s, id, name);
    CountFollows(s, t, id, name);
    ClosedCovered(s, id, name);
    hide CountFits, Owned, Covered;
    assert FreeFits(t);
    assert UseFits(t);
    assert IdleFits(t) by {
      forall n, k | 0 <= n < |s.upstreams| ensures IdleListFits(t, n, k) {
        assert IdleListFits(s, n, k);
      }
    }
  }

  lemma ServerClosedKeeps(s: State, id: nat)
    requires Inv(s) && id in s.inUse && s.pool.conns[id].owner.None?
    ensures Inv(s.(pool := PoolFree(s.pool, id), inUse := s.inUse - {id}))
  {
    var t := s.(pool := PoolFree(s.pool, id), inUse := s.inUse - {id});
    assert FreeFits(t);
    assert UseFits(t);
    assert IdleFits(t) by {
      forall n, k | 0 <= n < |s.upstreams| ensures IdleListFits(t, n, k) {
        assert IdleListFits(s, n, k);
      }
    }
    forall other | 0 <= other < |t.pool.conns| ensures other in t.inUse || Kept(t, other) {
      assert other in s.inUse || Kept(s, other);
      assert t.pool.free[1..] == s.pool.free && t.pool.free[0] == id;
    }
    CountSame(s, t);
  }

  ghost function Unidled(s: State, id: nat, name: nat, key: string, ids: seq<nat>): State
    requires name < |s.upstreams|
  {
    WithIdle(s, name, key, ids).(inUse := s.inUse + {id})
  }

  lemma UnidledLists(s: State, id: nat, name: nat, key: string, ids: seq<nat>)
    requires IdleFits(s) && name < |s.upstreams| && id in Idle(s.upstreams[name], key)
    requires Distinct(ids)
    requires forall other :: other in ids <==> other in Idle(s.upstreams[name], key) && other != id
    ensures IdleFits(Unidled(s, id, name, key, ids))
  {
    var t := Unidled(s, id, name, key, ids);
    assert IdleListFits(s, name, key);
    forall n, k | 0 <= n < |s.upstreams| ensures IdleListFits(t, n, k) {
      assert IdleListFits(s, n, k);
      if n == name && k == key {
        forall i | 0 <= i < |ids| ensures ids[i] in Idle(s.upstreams[name], key) && ids[i] != id {
          assert ids[i] in ids;
        }
      }
    }
  }

  lemma UnidledCovered(s: State, id: nat, name: nat, key: string, ids: seq<nat>)
    requires Covered(s) && name < |s.upstreams|
    requires forall other :: other in ids <==> other in Idle(s.upstreams[name], key) && other != id
    ensures Covered(Unidled(s, id, name, key, ids))
  {
    var t := Unidled(s, id, name, key, ids);
    forall other | 0 <= other < |t.pool.conns| ensures other in t.inUse || Kept(t, other) {
      assert other in s.inUse || Kept(s, other);
    }
  }

  /** An idle list loses one connection to a caller. */
  lemma UnidledKeeps(s: State, id: nat, name: nat, key: string, ids: seq<nat>)
    requires Inv(s) && name < |s.upstreams| && id in Idle(s.upstreams[name], key)
    requires Distinct(ids)
    requires forall other :: other in ids <==> other in Idle(s.upstreams[name], key) && other != id
    ensures Inv(Unidled(s, id, name, key, ids))
  {
    var t := Unidled(s, id, name, key, ids);
    UnidledLists(s, id, name, key, ids);
    UnidledCovered(s, id, name, key, ids);
    assert IdleListFits(s, name, key);
    hide IdleFits, Covered, Idle;
    assert FreeFits(t);
    assert UseFits(t);
    assert forall n :: 0 <= n < |s.upstreams| ==> t.upstreams[n].cur == s.upstreams[n].cur;
  }

  /** A caller's connection goes to the front of its idle list. */
  lemma IdledKeeps(s: State, id: nat, name: nat, key: string)
    requires Inv(s) && id in s.inUse && s.pool.conns[id].owner == Some(Owner(name, key))
    requires s.upstreams[name].maxRequest > 0 ==> s.pool.conns[id].requests < s.upstreams[name].maxRequest
    ensures Inv(WithIdle(s, name, key, [id] + Idle(s.upstreams[name], key)).(inUse := s.inUse - {id}))
  {
    var ids := [id] + Idle(s.upstreams[name], key);
    var t := WithIdle(s, name, key, ids).(inUse := s.inUse - {id});
    assert IdleListFits(s, name, key);
    assert FreeFits(t);
    assert UseFits(t);
    assert IdleFits(t) by {
      forall n, k | 0 <= n < |s.upstreams| ensures IdleListFits(t, n, k) {
        assert IdleListFits(s, n, k);
      }
    }
    forall other | 0 <= other < |t.pool.conns| ensures other in t.inUse || Kept(t, other) {
      assert other in s.inUse || Kept(s, other);
      assert ids[0] == id && ids[1..] == Idle(s.upstreams[name], key);
    }
    assert forall n :: 0 <= n < |s.upstreams| ==> t.upstreams[n].cur == s.upstreams[n].cur;
  }

  /** Writing an idle list back as it was. */
  lemma SameIdleKeeps(s: State, name: nat, key: string)
    requires Inv(s) && name < |s.upstreams|
    ensures Inv(WithIdle(s, name, key, Idle(s.upstreams[name], key)))
  {
    var t := WithIdle(s, name, key, Idle(s.upstreams[name], key));
    assert forall n, k :: 0 <= n < |s.upstreams| ==> Idle(t.upstreams[n], k) == Idle(s.upstreams[n], k);
    assert IdleFits(t) by {
      forall n, k | 0 <= n < |s.upstreams| ensures IdleListFits(t, n, k) {
        assert IdleListFits(s, n, k);
      }
    }
    forall other | 0 <= other < |t.pool.conns| ensures other in t.inUse || Kept(t, other) {
      assert other in s.inUse || Kept(s, other);
    }
    assert forall n :: 0 <= n < |s.upstreams| ==> t.upstreams[n].cur == s.upstreams[n].cur;
  }

  // ---------- the operations ----------

  lemma AcceptedKeeps(s: State, socketOk: bool, now: int)
    requires Inv(s)
    ensures Inv(Accepted(s, socketOk, now))
  {
    var t := s.(pool := Ready(s.pool));
    ReadyKeeps(s);
    hide Inv;
    assert Accepted(s, socketOk, now) == if t.pool.free == [] || !socketOk then t else Fronted(t, now);
    if t.pool.free != [] {
      FrontedKeeps(t, now);
    }
  }

  lemma ServerFreedKeeps(s: State, id: nat, ok: bool)
    requires Inv(s) && Enabled(s, ServerFree(id, ok))
    ensures Inv(ServerFreed(s, id, ok))
  {
    if ok {
      var c := s.pool.conns[id];
      ChangedKeeps(s, id, c.(version := c.version + 1, use := c.use + 1));
    } else {
      ServerClosedKeeps(s, id);
    }
  }

  lemma {:induction false} RemovedIs(ids: seq<nat>, id: nat)
    requires Distinct(ids)
    ensures Distinct(Removed(ids, id))
    ensures forall other :: other in Removed(ids, id) <==> other in ids && other != id
    ensures |Removed(ids, id)| == |ids| - (if id in ids then 1 else 0)
  {
    if ids != [] {
      var front := ids[..|ids| - 1];
      assert ids == front + [ids[|ids| - 1]];
      assert Distinct(front);
      RemovedIs(front, id);
      if ids[|ids| - 1] == id {
        assert id !in front;
      } else {
        forall i, j | 0 <= i < j < |Removed(ids, id)| ensures Removed(ids, id)[i] != Removed(ids, id)[j] {
          if j == |Removed(front, id)| {
            assert Removed(front, id)[i] in front;
          }
        }
      }
    }
  }

  /** The connection an upstream gives out, new or used before. */
  lemma TakeReused(s: State, name: nat, key: string, socketOk: bool, now: int, starts: bool)
    requires Inv(s) && name < |s.upstreams| && Idle(s.upstreams[name], key) != []
    requires Idle(s.upstreams[name], key)[0] < |s.pool.conns|
    ensures Inv(Take(s, name, Some(key), socketOk, now, starts))
  {
    var idle := Idle(s.upstreams[name], key);
    IdleListOf(s, name, key);
    hide Inv;
    FrontIsIdle(s, name, key);
    hide IdleListFits, Distinct, Take;
    UnidledKeeps(s, idle[0], name, key, idle[1..]);
    TakeReusedIs(s, name, key, socketOk, now, starts);
    var c, t := s.pool.conns[idle[0]], Unidled(s, idle[0], name, key, idle[1..]);
    ChangedKeeps(t, idle[0], c.(use := c.use + 1, requests := if starts then c.requests + 1 else c.requests));
  }

  lemma FrontIsIdle(s: State, name: nat, key: string)
    requires name < |s.upstreams| && IdleListFits(s, name, key) && Idle(s.upstreams[name], key) != []
    ensures var idle := Idle(s.upstreams[name], key);
      var id, u := idle[0], s.upstreams[name];
      && id in idle && Distinct(idle[1..]) && id < |s.pool.conns|
      && (forall other :: other in idle[1..] <==> other in idle && other != id)
      && s.pool.conns[id].owner == Some(Owner(name, key))
      && (u.maxRequest > 0 ==> s.pool.conns[id].requests < u.maxRequest)
  {
    var idle := Idle(s.upstreams[name], key);
    assert idle == [idle[0]] + idle[1..];
  }

  lemma TakeReusedIs(s: State, name: nat, key: string, socketOk: bool, now: int, starts: bool)
    requires name < |s.upstreams| && Whole(s.pool) && Idle(s.upstreams[name], key) != []
    requires var id := Idle(s.upstreams[name], key)[0];
      id < |s.pool.conns| && s.pool.conns[id].owner == Some(Owner(name, key))
    ensures var idle := Idle(s.upstreams[name], key);
      var c := s.pool.conns[idle[0]];
      Take(s, name, Some(key), socketOk, now, starts) ==
        WithConn(Unidled(s, idle[0], name, key, idle[1..]), idle[0],
                 c.(use := c.use + 1, requests := if starts then c.requests + 1 else c.requests))
  {
    var id := Idle(s.upstreams[name], key)[0];
    var c := s.pool.conns[id];
    var d := c.(use := c.use + 1, requests := if starts then c.requests + 1 else c.requests);
    assert c.(owner := Some(Owner(name, key)), use := c.use + 1) == c.(use := c.use + 1);
    assert s.pool.conns[id := c.(use := c.use + 1)][id := d] == s.pool.conns[id := d];
  }

  lemma TakeNew(s: State, name: nat, key: string, socketOk: bool, now: int, starts: bool)
    requires Inv(s) && name < |s.upstreams| && Idle(s.upstreams[name], key) == []
    ensures Inv(Take(s, name, Some(key), socketOk, now, starts))
  {
    var u, t := s.upstreams[name], WithIdle(s, name, key, []);
    SameIdleKeeps(s, name, key);
    assert Whole(s.pool);
    if u.cur >= u.maxSize || PoolGet(s.pool, socketOk, now).1.None? {
      AcceptedKeeps(t, socketOk, now);
      TakeNothingIs(s, name, key, socketOk, now, starts);
    } else {
      AcceptedKeeps(t, socketOk, now);
      GotIsFresh(t, socketOk, now);
      assert GotInUse(Accepted(t, socketOk, now), PoolGet(s.pool, socketOk, now).1.value);
      assert Accepted(t, socketOk, now).upstreams[name].cur == u.cur;
      hide Inv, Accepted, PoolGet, WithIdle, Take, GotInUse;
      TakeNewIs(s, name, key, socketOk, now, starts);
      GivenKeeps(Accepted(t, socketOk, now), PoolGet(s.pool, socketOk, now).1.value, name, key, starts);
    }
  }

  /** A connection just taken from the pool. */
  predicate GotInUse(s: State, id: nat) {
    id in s.inUse && id < |s.pool.conns| && s.pool.conns[id].owner.None? && s.pool.conns[id].requests == 0
  }

  /** It becomes an upstream's, and its request starts, if it does. */
  ghost function Given(s: State, id: nat, name: nat, key: string, starts: bool): State
    requires id < |s.pool.conns| && name < |s.upstreams|
  {
    var d := s.pool.conns[id].(owner := Some(Owner(name, key)), requests := if starts then 1 else 0);
    WithCur(WithConn(s, id, d), name, s.upstreams[name].cur + 1)
  }

  lemma GivenKeeps(s: State, id: nat, name: nat, key: string, starts: bool)
    requires Inv(s) && GotInUse(s, id)
    requires name < |s.upstreams| && s.upstreams[name].cur < s.upstreams[name].maxSize
    ensures Inv(Given(s, id, name, key, starts))
  {
    var c := s.pool.conns[id].(owner := Some(Owner(name, key)));
    var d := c.(requests := if starts then 1 else 0);
    OwnedKeeps(s, id, name, key);
    var w := WithCur(WithConn(s, id, c), name, s.upstreams[name].cur + 1);
    assert id in w.inUse && w.pool.conns[id] == c && w.upstreams[name].maxRequest == s.upstreams[name].maxRequest;
    assert w.pool.conns[id := d] == s.pool.conns[id := d];
    hide Inv;
    ChangedKeeps(w, id, d);
  }

  /** What the pool hands out was used by nobody and has no requests. */
  lemma GotIsFresh(s: State, socketOk: bool, now: int)
    requires Inv(s)
    ensures var (p, got) := PoolGet(s.pool, socketOk, now);
      got.Some? ==> got.value !in s.inUse && p.conns[got.value].owner.None? && p.conns[got.value].requests == 0
  {
    ReadyKeeps(s);
  }

  lemma TakeNewIs(s: State, name: nat, key: string, socketOk: bool, now: int, starts: bool)
    requires name < |s.upstreams| && Whole(s.pool) && Idle(s.upstreams[name], key) == []
    requires s.upstreams[name].cur < s.upstreams[name].maxSize
    requires var (p, got) := PoolGet(s.pool, socketOk, now); got.Some? && p.conns[got.value].requests == 0
    ensures Take(s, name, Some(key), socketOk, now, starts) ==
      Given(Accepted(WithIdle(s, name, key, []), socketOk, now), PoolGet(s.pool, socketOk, now).1.value,
            name, key, starts)
  {
  }

  lemma TakeNothingIs(s: State, name: nat, key: string, socketOk: bool, now: int, starts: bool)
    requires name < |s.upstreams| && Whole(s.pool) && Idle(s.upstreams[name], key) == []
    requires s.upstreams[name].cur >= s.upstreams[name].maxSize || PoolGet(s.pool, socketOk, now).1.None?
    ensures var t := WithIdle(s, name, key, []);
      Take(s, name, Some(key), socketOk, now, starts) ==
        if s.upstreams[name].cur >= s.upstreams[name].maxSize then t else Accepted(t, socketOk, now)
  {
  }

  /** Handing back in terms of the small steps, in each of its four cases. */
  lemma BackIs(s: State, id: nat, code: Code, now: int)
    requires Enabled(s, UpstreamBack(id, code, now))
    ensures var o, c := s.pool.conns[id].owner.value, s.pool.conns[id];
      var name, key, u := o.upstream, o.key, s.upstreams[o.upstream];
      var idle := Idle(u, key);
      Back(s, id, code, now) ==
        if code == Exception && id in idle then Closed(Unidled(s, id, name, key, Removed(idle, id)), id, name)
        else if code == Exception then Closed(WithIdle(s, name, key, idle), id, name)
        else if code != Fine || WornOut(u, c, now) then Closed(s, id, name)
        else WithIdle(WithConn(s, id, c.(version := c.version + 1)), name, key, [id] + idle)
             .(inUse := s.inUse - {id})
  {
    hide Removed;
    var o, c := s.pool.conns[id].owner.value, s.pool.conns[id];
    var name, key, u := o.upstream, o.key, s.upstreams[o.upstream];
    assert s.inUse + {id} - {id} == s.inUse - {id};
    if code == Exception {
      assert Idle(u.(idle := u.idle[key := Idle(u, key)]), key) == Idle(u, key);
    }
  }

  ghost function Closed(s: State, id: nat, name: nat): State
    requires id < |s.pool.conns| && name < |s.upstreams|
  {
    WithCur(s.(pool := PoolFree(s.pool, id), inUse := s.inUse - {id}), name, s.upstreams[name].cur - 1)
  }

  lemma StillFit(u: Upstream, c: Conn, now: int)
    ensures !WornOut(u, c, now) && u.maxRequest > 0 ==> c.requests < u.maxRequest
  {
  }

  lemma BackFromIdleKeeps(s: State, id: nat, name: nat, key: string)
    requires Inv(s) && name < |s.upstreams| && id in Idle(s.upstreams[name], key)
    ensures id < |s.pool.conns|
    ensures Inv(Closed(Unidled(s, id, name, key, Removed(Idle(s.upstreams[name], key), id)), id, name))
  {
    var idle := Idle(s.upstreams[name], key);
    IdleListOf(s, name, key);
    var t := Unidled(s, id, name, key, Removed(idle, id));
    assert id < |s.pool.conns| && OwnedBy(t.pool.conns[id], name);
    assert Distinct(idle);
    hide Inv, Removed, Distinct, IdleListFits;
    RemovedIs(idle, id);
    UnidledKeeps(s, id, name, key, Removed(idle, id));
    ClosedKeeps(t, id, name);
  }

  lemma BackToIdleKeeps(s: State, id: nat, now: int)
    requires Inv(s) && Enabled(s, UpstreamBack(id, Fine, now)) && id in s.inUse
    requires var c := s.pool.conns[id]; !WornOut(s.upstreams[c.owner.value.upstream], c, now)
    ensures var c := s.pool.conns[id]; var o := c.owner.value;
      Inv(WithIdle(WithConn(s, id, c.(version := c.version + 1)), o.upstream, o.key,
                   [id] + Idle(s.upstreams[o.upstream], o.key)).(inUse := s.inUse - {id}))
  {
    var c, o := s.pool.conns[id], s.pool.conns[id].owner.value;
    StillFit(s.upstreams[o.upstream], c, now);
    assert UseFits(s);
    hide Inv, WornOut, Idle;
    ChangedKeeps(s, id, c.(version := c.version + 1));
    IdledKeeps(WithConn(s, id, c.(version := c.version + 1)), id, o.upstream, o.key);
  }

  lemma InUseOrIdle(s: State, id: nat)
    requires Inv(s) && id < |s.pool.conns| && s.pool.conns[id].owner.Some?
    ensures var o := s.pool.conns[id].owner.value;
      o.upstream < |s.upstreams| && (id in s.inUse || id in Idle(s.upstreams[o.upstream], o.key))
  {
    assert id in s.inUse || Kept(s, id);
  }

  lemma BackKeeps(s: State, id: nat, code: Code, now: int)
    requires Inv(s) && Enabled(s, UpstreamBack(id, code, now))
    ensures Inv(Back(s, id, code, now))
  {
    var o, c := s.pool.conns[id].owner.value, s.pool.conns[id];
    var name, key, u := o.upstream, o.key, s.upstreams[o.upstream];
    var idle := Idle(u, key);
    InUseOrIdle(s, id);
    BackIs(s, id, code, now);
    hide Inv, Back, Removed, WornOut, Closed, Unidled, WithIdle, WithConn, Idle;
    if code == Exception && id in idle {
      BackFromIdleKeeps(s, id, name, key);
    } else if code == Exception {
      SameIdleKeeps(s, name, key);
      WithIdleSame(s, name, key, idle);
      ClosedKeeps(WithIdle(s, name, key, idle), id, name);
    } else if code != Fine || WornOut(u, c, now) {
      ClosedKeeps(s, id, name);
    } else {
      BackToIdleKeeps(s, id, now);
    }
  }

  lemma WithIdleSame(s: State, name: nat, key: string, ids: seq<nat>)
    requires name < |s.upstreams|
    ensures var t := WithIdle(s, name, key, ids);
      t.pool == s.pool && t.inUse == s.inUse && |t.upstreams| == |s.upstreams|
  {
  }

  lemma IdleListOf(s: State, name: nat, key: string)
    requires Inv(s) && name < |s.upstreams|
    ensures IdleListFits(s, name, key)
  {
  }

  lemma StepKeeps(s: State, a: Action)
    requires Inv(s) && Enabled(s, a)
    ensures Inv(Do(s, a))
  {
    hide FreeFits, IdleFits, Covered, CountFits, Take, Back, Accepted, ServerFreed;
    match a {
      case Accept(socketOk, now) => AcceptedKeeps(s, socketOk, now);
      case ServerRequest(id) => ChangedKeeps(s, id, s.pool.conns[id].(requests := s.pool.conns[id].requests + 1));
      case ServerFree(id, ok) => ServerFreedKeeps(s, id, ok);
      case UpstreamTake(name, key, socketOk, now, starts) =>
        if key.Some? {
          IdleListOf(s, name, key.value);
        }
        TakeKeeps(s, name, key, socketOk, now, starts);
      case UpstreamBack(id, code, now) => BackKeeps(s, id, code, now);
    }
  }

  lemma TakeKeeps(s: State, name: nat, key: Option<string>, socketOk: bool, now: int, starts: bool)
    requires Inv(s) && name < |s.upstreams|
    requires key.Some? && Idle(s.upstreams[name], key.value) != [] ==>
      Idle(s.upstreams[name], key.value)[0] < |s.pool.conns|
    ensures Inv(Take(s, name, key, socketOk, now, starts))
  {
    if key.None? {
      assert s.upstreams[name := s.upstreams[name]] == s.upstreams;
    } else if Idle(s.upstreams[name], key.value) != [] {
      TakeReused(s, name, key.value, socketOk, now, starts);
    } else {
      TakeNew(s, name, key.value, socketOk, now, starts);
    }
  }

  // ---------- whole runs ----------

  /** The pool as the program starts it: four connections at least, 65535 at most, and
      three of its own. */
  function StartPool(minSize: int, maxSize: int): Pool {
    var least, most := if minSize < 4 then 4 else minSize, if maxSize > 65535 then 65535 else maxSize;
    Expand(Pool(most + 3, [], []), least + 3)
  }

  /** All it has built is free, and it may hold three more than configured. */
  lemma StartPoolIs(minSize: int, maxSize: int)
    ensures var p := StartPool(minSize, maxSize);
      var wanted, most := (if minSize > 4 then minSize else 4) + 3, (if maxSize < 65535 then maxSize else 65535) + 3;
      && p.maxSize == most
      && |p.free| == |p.conns| == (if most <= 0 then 0 else if wanted < most then wanted else most)
      && forall i :: 0 <= i < |p.free| ==> p.free[i] == i && p.conns[i] == NEW
  {
  }

  ghost predicate Start(s: State, minSize: int, maxSize: int) {
    && s.pool == StartPool(minSize, maxSize) && s.inUse == {}
    && forall name :: 0 <= name < |s.upstreams| ==> s.upstreams[name].cur == 0 && s.upstreams[name].idle == map[]
  }

  lemma StartFits(s: State, minSize: int, maxSize: int)
    requires Start(s, minSize, maxSize)
    ensures Inv(s)
  {
    assert forall name, key :: 0 <= name < |s.upstreams| ==> Idle(s.upstreams[name], key) == [];
    forall id | 0 <= id < |s.pool.conns| ensures Kept(s, id) {
      assert s.pool.free[id] == id;
    }
    assert forall name :: 0 <= name < |s.upstreams| ==> Owned(s.pool.conns, name) == {};
  }

  ghost function Step(s: State, a: Action): (t: State)
    requires Inv(s) && Enabled(s, a)
    ensures Inv(t)
  {
    StepKeeps(s, a);
    Do(s, a)
  }

  ghost predicate Run(s: State, acts: seq<Action>)
    requires Inv(s)
    decreases |acts|
  {
    acts == [] || (Enabled(s, acts[0]) && Run(Step(s, acts[0]), acts[1..]))
  }

  ghost function After(s: State, acts: seq<Action>): (t: State)
    requires Inv(s) && Run(s, acts)
    ensures Inv(t)
    decreases |acts|
  {
    if acts == [] then s else After(Step(s, acts[0]), acts[1..])
  }

  ghost predicate Lists(s: State, name: nat, key: string, id: nat) {
    name < |s.upstreams| && id in Idle(s.upstreams[name], key)
  }

  lemma ListedIsOwned(s: State, name: nat, key: string, id: nat)
    requires Inv(s) && Lists(s, name, key, id)
    ensures id < |s.pool.conns| && s.pool.conns[id].owner == Some(Owner(name, key))
    ensures id !in s.inUse && id !in s.pool.free
  {
    IdleListOf(s, name, key);
  }

  /** Every connection built is in exactly one place: with a caller, in the free list, or in
      one idle list, once; and no more are built than the pool may hold. */
  lemma ExactlyOnePlace(s: State, acts: seq<Action>, id: nat)
    requires Inv(s) && Run(s, acts)
    ensures var t := After(s, acts);
      && (id in t.pool.free ==> id !in t.inUse)
      && (forall name, key :: Lists(t, name, key, id) ==> id !in t.inUse && id !in t.pool.free)
      && (forall name, key, name', key' :: Lists(t, name, key, id) && Lists(t, name', key', id) ==>
            name == name' && key == key')
    ensures var t := After(s, acts);
      id < |t.pool.conns| <==>
        id in t.inUse || id in t.pool.free || exists name, key :: Lists(t, name, key, id)
    ensures var t := After(s, acts);
      && Distinct(t.pool.free)
      && (forall name, key :: 0 <= name < |t.upstreams| ==> Distinct(Idle(t.upstreams[name], key)))
      && |t.pool.conns| <= (if t.pool.maxSize > 0 then t.pool.maxSize else 0)
  {
    var t := After(s, acts);
    hide Distinct, After;
    forall name, key | 0 <= name < |t.upstreams| ensures Distinct(Idle(t.upstreams[name], key)) {
      IdleListOf(t, name, key);
    }
    forall name, key | Lists(t, name, key, id)
      ensures id !in t.inUse && id !in t.pool.free
      ensures id < |t.pool.conns| && t.pool.conns[id].owner == Some(Owner(name, key))
    {
      ListedIsOwned(t, name, key, id);
    }
    if id < |t.pool.conns| && id !in t.inUse && id !in t.pool.free {
      assert Kept(t, id);
      var o := t.pool.conns[id].owner.value;
      assert Lists(t, o.upstream, o.key, id);
    }
  }

  ghost function InUseOf(s: State, name: nat): set<nat> {
    set id | id in s.inUse && id < |s.pool.conns| && OwnedBy(s.pool.conns[id], name)
  }

  /** The connections in an upstream's idle lists, those of all its back ends. */
  ghost function IdleOf(s: State, name: nat): set<nat>
    requires name < |s.upstreams|
  {
    set key, id | key in s.upstreams[name].idle && id in s.upstreams[name].idle[key] :: id
  }

  /** An upstream's counter is its idle and in-use connections, and never over its limit. */
  lemma CounterIsExact(s: State, acts: seq<Action>, name: nat)
    requires Inv(s) && Run(s, acts) && name < |After(s, acts).upstreams|
    ensures var t := After(s, acts); var u := t.upstreams[name];
      && u.cur == |InUseOf(t, name)| + |IdleOf(t, name)|
      && u.cur <= (if u.maxSize > 0 then u.maxSize else 0)
  {
    var t := After(s, acts);
    hide After;
    var owned, used, idle := Owned(t.pool.conns, name), InUseOf(t, name), IdleOf(t, name);
    forall key | key in t.upstreams[name].idle ensures IdleListFits(t, name, key) {
      IdleListOf(t, name, key);
    }
    forall id | id in owned ensures id in used || id in idle {
      assert id in t.inUse || Kept(t, id);
    }
    assert owned == used + idle && used !! idle;
    hide *;
    assert |used + idle| == |used| + |idle|;
  }

  /** No connection of an upstream carries more requests than its positive limit, and an
      idle one fewer. */
  lemma RequestsWithinLimit(s: State, acts: seq<Action>, name: nat, id: nat)
    requires Inv(s) && Run(s, acts) && name < |After(s, acts).upstreams|
    requires id < |After(s, acts).pool.conns| && OwnedBy(After(s, acts).pool.conns[id], name)
    requires After(s, acts).upstreams[name].maxRequest > 0
    ensures var t := After(s, acts); var limit := t.upstreams[name].maxRequest;
      && t.pool.conns[id].requests <= limit
      && (id !in t.inUse ==> t.pool.conns[id].requests < limit)
  {
    var t := After(s, acts);
    hide After;
    IdleListOf(t, name, t.pool.conns[id].owner.value.key);
    assert id in t.inUse || Kept(t, id);
  }

  // ---------- no entry outlives the use it was made for ----------

  /** Seen from state `s`, in state `t`: whoever used a connection in `s` finds its version
      unchanged exactly if it is still in the same use of it. */
  ghost predicate SameUse(s: State, t: State) {
    && |s.pool.conns| <= |t.pool.conns|
    && forall id :: 0 <= id < |s.pool.conns| ==>
         var c, d := s.pool.conns[id], t.pool.conns[id];
         && c.version <= d.version && c.use <= d.use
         && (id in s.inUse ==> (c.version == d.version <==> id in t.inUse && c.use == d.use))
         && (id !in s.inUse && id in t.inUse ==> c.use < d.use)
  }

  lemma GetSameUse(p: Pool, socketOk: bool, now: int)
    requires Whole(p)
    ensures var (q, got) := PoolGet(p, socketOk, now);
      && |p.conns| <= |q.conns|
      && (forall id :: 0 <= id < |p.conns| ==>
            && p.conns[id].version == q.conns[id].version
            && (got != Some(id) ==> p.conns[id] == q.conns[id]))
      && (got.Some? ==> got.value in Ready(p).free)
  {
  }

  /** A connection nobody used goes to a caller; the others are as they were. */
  lemma TakenSameUse(s: State, t: State, got: nat)
    requires |s.pool.conns| <= |t.pool.conns| && t.inUse == s.inUse + {got} && got !in s.inUse
    requires forall id :: 0 <= id < |s.pool.conns| && id != got ==> s.pool.conns[id] == t.pool.conns[id]
    requires got < |s.pool.conns| ==>
      s.pool.conns[got].version == t.pool.conns[got].version && s.pool.conns[got].use < t.pool.conns[got].use
    ensures SameUse(s, t)
  {
  }

  lemma TakeReusedSameUse(s: State, name: nat, key: string, socketOk: bool, now: int, starts: bool)
    requires Inv(s) && name < |s.upstreams| && Idle(s.upstreams[name], key) != []
    requires Idle(s.upstreams[name], key)[0] < |s.pool.conns|
    ensures SameUse(s, Take(s, name, Some(key), socketOk, now, starts))
  {
    IdleListOf(s, name, key);
    var got := Idle(s.upstreams[name], key)[0];
    assert got !in s.inUse;
    hide Inv, IdleListFits;
    TakenSameUse(s, Take(s, name, Some(key), socketOk, now, starts), got);
  }

  lemma TakeNewSameUse(s: State, name: nat, key: string, socketOk: bool, now: int, starts: bool)
    requires Inv(s) && name < |s.upstreams| && Idle(s.upstreams[name], key) == []
    ensures SameUse(s, Take(s, name, Some(key), socketOk, now, starts))
  {
    var u, t := s.upstreams[name], Take(s, name, Some(key), socketOk, now, starts);
    GetSameUse(s.pool, socketOk, now);
    GotIsFresh(s, socketOk, now);
    GotBegins(s.pool, socketOk, now);
    hide Inv, PoolGet;
    var (q, got) := PoolGet(s.pool, socketOk, now);
    if u.cur < u.maxSize && got.Some? {
      TakenSameUse(s, t, got.value);
    }
  }

  lemma GotBegins(p: Pool, socketOk: bool, now: int)
    requires Whole(p)
    ensures var (q, got) := PoolGet(p, socketOk, now);
      got.Some? && got.value < |p.conns| ==> p.conns[got.value].use < q.conns[got.value].use
  {
  }

  lemma TakeSameUse(s: State, name: nat, key: Option<string>, socketOk: bool, now: int, starts: bool)
    requires Inv(s) && name < |s.upstreams|
    requires key.Some? && Idle(s.upstreams[name], key.value) != [] ==>
      Idle(s.upstreams[name], key.value)[0] < |s.pool.conns|
    ensures SameUse(s, Take(s, name, key, socketOk, now, starts))
  {
    if key.Some? {
      hide Take, SameUse, Inv;
      if Idle(s.upstreams[name], key.value) != [] {
        TakeReusedSameUse(s, name, key.value, socketOk, now, starts);
      } else {
        TakeNewSameUse(s, name, key.value, socketOk, now, starts);
      }
    }
  }

  lemma StepSameUse(s: State, a: Action)
    requires Inv(s) && Enabled(s, a)
    ensures SameUse(s, Do(s, a))
  {
    match a {
      case Accept(socketOk, now) =>
        GetSameUse(s.pool, socketOk, now);
        GotIsFresh(s, socketOk, now);
      case ServerRequest(id) =>
      case ServerFree(id, ok) =>
      case UpstreamTake(name, key, socketOk, now, starts) =>
        if key.Some? {
          IdleListOf(s, name, key.value);
        }
        hide Take;
        TakeSameUse(s, name, key, socketOk, now, starts);
      case UpstreamBack(id, code, now) =>
    }
  }

  lemma {:induction false} RunSameUse(s: State, acts: seq<Action>)
    requires Inv(s) && Run(s, acts)
    ensures SameUse(s, After(s, acts))
    decreases |acts|
  {
    if acts != [] {
      StepSameUse(s, acts[0]);
      hide Do, Enabled;
      RunSameUse(Step(s, acts[0]), acts[1..]);
    }
  }

  /** A queue entry or an event holds a connection and its version at the time. On every run
      that version is still the connection's exactly as long as the connection is in the very
      use the entry was made in; once that use has ended the entry is refused for ever. */
  lemma NoStaleUse(s: State, acts: seq<Action>, id: nat)
    requires Inv(s) && Run(s, acts) && id in s.inUse
    ensures var t := After(s, acts);
      && id < |s.pool.conns| <= |t.pool.conns|
      && s.pool.conns[id].version <= t.pool.conns[id].version
      && (t.pool.conns[id].version == s.pool.conns[id].version <==>
            id in t.inUse && t.pool.conns[id].use == s.pool.conns[id].use)
  {
    RunSameUse(s, acts);
  }

  // ---------- last given back, first reused ----------

  /** The pool gives out again first what it got back last, emptied and with a new version. */
  lemma FreedIsNext(p: Pool, id: nat, now: int)
    requires Whole(p) && id < |p.conns|
    ensures var (q, got) := PoolGet(PoolFree(p, id), true, now);
      && got == Some(id) && q.free == p.free
      && q.conns[id] == Conn(p.conns[id].version + 1, 0, now, None, p.conns[id].use + 1)
  {
    assert ([id] + p.free)[1..] == p.free;
  }

  /** A connection kept open is the next one for its back end: the same socket, with its
      requests counted on and a new version; the lists and counters are as before. */
  lemma KeptIsNext(p: Pool, u: Upstream, id: nat, now: int, later: int, socketOk: bool)
    requires Whole(p) && id < |p.conns| && p.conns[id].owner.Some? && !WornOut(u, p.conns[id], now)
    ensures var c, o := p.conns[id], p.conns[id].owner.value;
      var (q, v, charged) := UpstreamFree(p, u, id, Fine, now);
      var (r, w, got) := UpstreamGet(q, v, o.upstream, Some(o.key), socketOk, later);
      && !charged && got == Some(id)
      && r == p.(conns := p.conns[id := c.(version := c.version + 1, use := c.use + 1)])
      && w.cur == u.cur && forall key :: Idle(w, key) == Idle(u, key)
  {
    var c, o := p.conns[id], p.conns[id].owner.value;
    var (q, v, charged) := UpstreamFree(p, u, id, Fine, now);
    assert Idle(v, o.key) == [id] + Idle(u, o.key);
    assert Idle(v, o.key)[1..] == Idle(u, o.key);
    var d := c.(version := c.version + 1);
    assert d.(owner := Some(Owner(o.upstream, o.key)), use := d.use + 1)
        == c.(version := c.version + 1, use := c.use + 1);
    assert q.conns[id := c.(version := c.version + 1, use := c.use + 1)]
        == p.conns[id := c.(version := c.version + 1, use := c.use + 1)];
  }

  // ---------- when a connection is refused, kept or charged for ----------

  /** The pool refuses exactly when no socket can be set up or every connection it may hold is
      built and given out; otherwise it builds sixteen more, or as many as it may, if none is
      free. */
  lemma PoolRefusesIff(p: Pool, socketOk: bool, now: int)
    requires Whole(p)
    ensures var (q, got) := PoolGet(p, socketOk, now);
      && (got.None? <==> !socketOk || (p.free == [] && |p.conns| >= p.maxSize))
      && |q.conns| == (if p.free != [] || |p.conns| >= p.maxSize then |p.conns|
                       else if |p.conns| + 16 <= p.maxSize then |p.conns| + 16 else p.maxSize)
      && (got.Some? && p.free != [] ==> got.value == p.free[0])
  {
  }

  /** An upstream refuses exactly when there is no back end, or none of its connections to it is
      idle and it has as many as it may or the pool refuses. */
  lemma UpstreamRefusesIff(p: Pool, u: Upstream, name: nat, key: Option<string>, socketOk: bool, now: int)
    requires Whole(p)
    requires key.Some? && Idle(u, key.value) != [] ==> Idle(u, key.value)[0] < |p.conns|
    ensures UpstreamGet(p, u, name, key, socketOk, now).2.None? <==>
      || key.None?
      || (Idle(u, key.value) == [] &&
          (u.cur >= u.maxSize || !socketOk || (p.free == [] && |p.conns| >= p.maxSize)))
  {
    PoolRefusesIff(p, socketOk, now);
    hide PoolGet;
  }

  /** The back end is charged with a failure exactly if a connection that was in use is handed
      back with an error; an idle one that fails is not its fault. */
  lemma ChargedIff(s: State, id: nat, code: Code, now: int)
    requires Inv(s) && Enabled(s, UpstreamBack(id, code, now))
    ensures var u := s.upstreams[s.pool.conns[id].owner.value.upstream];
      UpstreamFree(s.pool, u, id, code, now).2 <==> code != Fine && id in s.inUse
  {
    var o := s.pool.conns[id].owner.value;
    InUseOrIdle(s, id);
    IdleListOf(s, o.upstream, o.key);
    hide Inv, Removed, Close, WornOut;
  }

  /** A connection handed back is kept for its back end exactly if there was no error and it is
      under both limits that are set, on requests and on milliseconds since it was set up; then
      it goes to the front of its idle list and the counter stays. Else it goes to the front of
      the pool's free list and the counter drops. */
  lemma KeptOpenIff(s: State, id: nat, code: Code, now: int)
    requires Inv(s) && Enabled(s, UpstreamBack(id, code, now))
    ensures var c, t := s.pool.conns[id], Back(s, id, code, now); var o := c.owner.value;
      var u, v := s.upstreams[o.upstream], t.upstreams[o.upstream];
      var kept := && code == Fine
                  && (u.maxRequest == 0 || c.requests < u.maxRequest)
                  && (u.maxTime == 0 || Backend.Int32(now - c.started) < u.maxTime);
      && id !in t.inUse && |t.pool.conns| == |s.pool.conns|
      && (kept ==>
            && Idle(v, o.key) == [id] + Idle(u, o.key) && v.cur == u.cur && t.pool.free == s.pool.free
            && t.pool.conns[id] == c.(version := c.version + 1))
      && (!kept ==>
            && id !in Idle(v, o.key) && v.cur == u.cur - 1 && t.pool.free == [id] + s.pool.free
            && t.pool.conns[id] == Conn(c.version + 1, 0, 0, None, c.use))
  {
    var o := s.pool.conns[id].owner.value;
    InUseOrIdle(s, id);
    IdleListOf(s, o.upstream, o.key);
    RemovedIs(Idle(s.upstreams[o.upstream], o.key), id);
    hide Inv, Removed;
  }

  /** A connection handed back without error and given out again `n` times, each time for a
      request more. */
  function Reused(p: Pool, u: Upstream, id: nat, n: nat): (Pool, Upstream)
    requires Whole(p) && id < |p.conns| && p.conns[id].owner.Some?
    requires u.maxTime == 0 && p.conns[id].requests + n <= u.maxRequest
    decreases n
  {
    if n == 0 then (p, u) else
    KeptIsNext(p, u, id, 0, 0, false);
    var (q, v, _) := UpstreamFree(p, u, id, Fine, 0);
    var (r, w, got) := UpstreamGet(q, v, p.conns[id].owner.value.upstream, Some(p.conns[id].owner.value.key), false, 0);
    Reused(Requested(r, id), w, id, n - 1)
  }

  /** With a limit on requests and none on time, a connection set up for its first request is
      used for exactly as many as the limit says: each time before, it is kept and is the next
      one given out, and after the last it is closed. */
  lemma {:induction false} ServesMaxRequests(p: Pool, u: Upstream, id: nat, n: nat)
    requires Whole(p) && id < |p.conns| && p.conns[id].owner.Some?
    requires u.maxTime == 0 && 0 < u.maxRequest && p.conns[id].requests + n <= u.maxRequest
    ensures var (r, w) := Reused(p, u, id, n);
      && Whole(r) && id < |r.conns| && r.conns[id].owner == p.conns[id].owner && w.cur == u.cur
      && r.conns[id].requests == p.conns[id].requests + n
      && var (q, v, _) := UpstreamFree(r, w, id, Fine, 0);
         if p.conns[id].requests + n < u.maxRequest then v.cur == u.cur && q.free == p.free
         else v.cur == u.cur - 1 && q.free == [id] + p.free
    decreases n
  {
    if n > 0 {
      KeptIsNext(p, u, id, 0, 0, false);
      var (q, v, _) := UpstreamFree(p, u, id, Fine, 0);
      var o := p.conns[id].owner.value;
      var (r, w, got) := UpstreamGet(q, v, o.upstream, Some(o.key), false, 0);
      ServesMaxRequests(Requested(r, id), w, id, n - 1);
    }
  }
}
