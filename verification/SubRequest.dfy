/** A request and the upstream sub-requests it waits for, on the dispatcher's thread: how
    they are counted, retried, killed and finalised, and when the parent is queued. */
module SubRequest {
  import opened Common

  datatype Phase = Working | Waiting | Done

  /** An entry of the delay queue. */
  datatype Item = Item(conn: nat, version: nat)

  /** A sub-request under way, on its current connection. `since` is how many entries had ever
      been queued when it took it. */
  datatype Child = Child(conn: nat, version: nat, retries: nat, parentDying: bool, since: nat)

  datatype State = State(
    phase: Phase,                  // the parent's coroutine: running (or blocked elsewhere), in run_upstreams, ended
    conn: nat,                     // the parent's connection
    dying: bool,                   // its m_flagDying, or m_flagPendingEof, which event_exception
                                   // turns into it before anything of the parent runs again
    count: int,                    // m_count
    children: map<nat, Child>,     // m_upstreamRequests, by request id
    versions: map<nat, nat>,       // m_version of the connections
    delay: seq<Item>,              // m_delayConnections
    popped: nat,                   // how many entries have been taken off it
    batch: nat,                    // sub-requests added since the parent last ran on
    queued: nat,                   // how often the parent was queued for this batch
    nextId: nat,
    finalised: seq<nat>,           // ids of the sub-requests finalised, in order
    crashed: bool)                 // a deleted request, or none, has been used: no promise from here on

  function Version(s: State, conn: nat): nat {
    if conn in s.versions then s.versions[conn] else 0
  }

  function Initial(conn: nat, versions: map<nat, nat>): State {
    State(Working, conn, false, 1, map[], versions, [], 0, 0, 0, 0, [], false)
  }

  function Current(s: State, conn: nat): Item {
    Item(conn, Version(s, conn))
  }

  /** A connection that neither the parent nor a sub-request is using. */
  predicate Unused(s: State, conn: nat) {
    conn != s.conn && forall id :: id in s.children ==> s.children[id].conn != conn
  }

  // ---------- the operations ----------

  /** How many entries have ever been queued. */
  function Pushed(s: State): nat {
    s.popped + |s.delay|
  }

  function Add(s: State, conn: nat): State {
    s.(children := s.children[s.nextId := Child(conn, Version(s, conn), 0, false, Pushed(s))],
       count := s.count + 1, nextId := s.nextId + 1, batch := s.batch + 1,
       delay := s.delay + [Current(s, conn)])
  }

  /** Freeing a connection, for reuse or for good, gives it a new version. */
  function Free(s: State, conn: nat): State {
    s.(versions := s.versions[conn := Version(s, conn) + 1])
  }

  /** upstream_finalize_request: the last one out queues the parent. */
  function FinalizeRequest(s: State, id: nat): State {
    var t := s.(children := s.children - {id}, count := s.count - 1, finalised := s.finalised + [id]);
    if t.count == 1 then t.(delay := t.delay + [Current(t, t.conn)], queued := t.queued + 1) else t
  }

  predicate NeedRetry(c: Child, ok: bool, retryMax: int) {
    !c.parentDying && !ok && retryMax > c.retries
  }

  /** upstream_finalize: `next` is the connection a retry gets, if it gets one. */
  function Finalize(s: State, id: nat, ok: bool, next: Option<nat>, retryMax: int): State
    requires id in s.children
  {
    var c := s.children[id];
    if !NeedRetry(c, ok, retryMax) then Free(FinalizeRequest(s, id), c.conn) else
    var t := Free(s, c.conn);
    match next
    case None => FinalizeRequest(t, id)
    case Some(conn) =>
      t.(children := t.children[id := Child(conn, Version(t, conn), c.retries + 1, false, Pushed(t))],
         delay := t.delay + [Current(t, conn)])
  }

  function Items(s: State, order: seq<nat>): seq<Item>
    requires forall i :: 0 <= i < |order| ==> order[i] in s.children
  {
    if order == [] then [] else
    Items(s, order[..|order| - 1]) + [Current(s, s.children[order[|order| - 1]].conn)]
  }

  ghost predicate Lists(s: State, order: seq<nat>) {
    forall id :: id in s.children <==> id in order
  }

  /** The dispatcher reaches the parent: event_exception, then its coroutine unless that
      says otherwise. A dying parent with sub-requests left has them all flagged and
      queued, in the order `order` the map yields them, and is not run. */
  function ParentDispatched(s: State, order: seq<nat>): State
    requires forall i :: 0 <= i < |order| ==> order[i] in s.children
  {
    if s.dying && s.children != map[] then
      s.(children := map id | id in s.children :: s.children[id].(parentDying := true),
         delay := s.delay + Items(s, order))
    else if s.phase == Waiting then s.(phase := Working, batch := 0, queued := 0)
    else s
  }

  // ---------- steps ----------

  /** What may follow when a turn goes on after it has finalised its request once: the request
      is finalised again, or its connection is read from and then, maybe, finalised. */
  datatype Rest =
    | Again(next: Option<nat>)
    | Reading
    | Read(ok: bool, next: Option<nat>)

  /** How a sub-request's turn ends: suspended again; finalised with a result; or, when epoll
      refuses the call at the end of writing, finalised as failed and then gone on with. */
  datatype Turn =
    | Suspended
    | Finished(ok: bool, next: Option<nat>)
    | Twice(next: Option<nat>, rest: Rest)

  datatype Action =
    | AddUpstream(conn: nat)
    | RunUpstreams
    | ChildEvent(id: nat, turn: Turn)               // epoll, timer or a resume entry, on its connection
    | ParentEvent(exception: bool, order: seq<nat>) // epoll or timer; a timeout or hang-up, or neither
    | PopDelay(id: nat, turn: Turn, order: seq<nat>, frees: bool)
    | ResumeEntry(version: nat, order: seq<nat>)    // of the parent, popped from m_waitResumes
    | OtherFrees(conn: nat)                         // a connection this request does not use
    | CloseAll(conns: seq<nat>)                     // close_all_connection, when stopping
    | EndParent

  /** A retry gets a connection nobody uses, or the one just given back. */
  predicate MayTake(s: State, id: nat, next: Option<nat>) {
    next.Some? ==> Unused(s, next.value) || (id in s.children && next.value == s.children[id].conn)
  }

  predicate TurnAllowed(s: State, id: nat, turn: Turn, retryMax: int) {
    && id in s.children
    && match turn
       // calls of a dying connection return an error at once, so it runs to its end
       case Suspended => !s.children[id].parentDying
       case Finished(_, next) => MayTake(s, id, next)
       case Twice(next, rest) =>
         MayTake(s, id, next) && (rest.Reading? || MayTake(Finalize(s, id, false, next, retryMax), id, rest.next))
  }

  /** The parent does not suspend between adding and running, so while it has added
      something and not yet run it no other step happens. */
  predicate Adding(s: State) {
    s.phase == Working && s.batch > 0
  }

  ghost predicate Enabled(s: State, a: Action, retryMax: int) {
    && !s.crashed
    && match a
       case AddUpstream(conn) => s.phase == Working && Unused(s, conn)
       case RunUpstreams => s.phase == Working && s.nextId > 0
       case ChildEvent(id, turn) => !Adding(s) && TurnAllowed(s, id, turn, retryMax)
       case ParentEvent(_, order) => !Adding(s) && s.phase != Done && Lists(s, order)
       case PopDelay(id, turn, order, _) =>
         && !Adding(s) && s.delay != [] && Lists(s, order)
         && (ActsOnChild(s) ==> TurnAllowed(s, id, turn, retryMax) && s.children[id].conn == s.delay[0].conn)
       case ResumeEntry(version, order) => !Adding(s) && Lists(s, order) && version <= Version(s, s.conn)
       case OtherFrees(conn) => !Adding(s) && Unused(s, conn)
       case CloseAll(_) => !Adding(s)
       case EndParent => s.phase == Working && s.batch == 0
  }

  /** The entry at the front is current and its connection a sub-request's. */
  predicate ActsOnChild(s: State) {
    s.delay != [] && s.delay[0] == Current(s, s.delay[0].conn)
    && s.delay[0].conn != s.conn && !Unused(s, s.delay[0].conn)
  }

  /** Every connection with an open socket is queued, flagged as hung up, idle ones included. */
  function Closing(s: State, conns: seq<nat>): State {
    s.(dying := s.dying || s.conn in conns, delay := s.delay + CurrentAll(s, conns))
  }

  function CurrentAll(s: State, conns: seq<nat>): (r: seq<Item>)
    ensures |r| == |conns| && forall i :: 0 <= i < |conns| ==> r[i] == Current(s, conns[i])
  {
    seq(|conns|, i requires 0 <= i < |conns| => Current(s, conns[i]))
  }

  /** The request was deleted, or reading goes on on a connection that has none. */
  predicate LosesRequest(s: State, id: nat, turn: Turn, retryMax: int)
    requires id in s.children
  {
    turn.Twice? && var first := Finalize(s, id, false, turn.next, retryMax);
    id !in first.children || (!turn.rest.Again? && first.children[id].conn != s.children[id].conn)
  }

  /** That is so unless the first finalisation retried, and, to read on, on the very connection
      it gave back. */
  lemma LosesWhen(s: State, id: nat, next: Option<nat>, rest: Rest, retryMax: int)
    requires id in s.children
    ensures LosesRequest(s, id, Twice(next, rest), retryMax) <==>
      || !NeedRetry(s.children[id], false, retryMax)
      || next.None?
      || (!rest.Again? && next.value != s.children[id].conn)
  {
  }

  function ChildTurn(s: State, id: nat, turn: Turn, retryMax: int): State
    requires id in s.children
  {
    match turn
    case Suspended => s
    case Finished(ok, next) => Finalize(s, id, ok, next, retryMax)
    case Twice(next, rest) =>
      var first := Finalize(s, id, false, next, retryMax);
      if LosesRequest(s, id, turn, retryMax) then first.(crashed := true) else
      match rest
      case Again(last) => Finalize(first, id, false, last, retryMax)
      case Reading => first
      case Read(ok, last) => Finalize(first, id, ok, last, retryMax)
  }

  function Popped(s: State): State
    requires s.delay != []
  {
    s.(delay := s.delay[1..], popped := s.popped + 1)
  }

  ghost function Do(s: State, a: Action, retryMax: int): State
    requires Enabled(s, a, retryMax)
  {
    match a
    case AddUpstream(conn) => Add(s, conn)
    case RunUpstreams => s.(phase := Waiting)
    case ChildEvent(id, turn) => ChildTurn(s, id, turn, retryMax)
    case ParentEvent(exception, order) => ParentDispatched(s.(dying := s.dying || exception), order)
    case PopDelay(id, turn, order, frees) =>
      var item, t := s.delay[0], Popped(s);
      if item != Current(s, item.conn) then t
      else if item.conn == s.conn then ParentDispatched(t, order)
      else if ActsOnChild(s) then ChildTurn(t, id, turn, retryMax)
      // an idle connection, which is closed, or one that others use
      else if frees then Free(t, item.conn)
      else t
    case ResumeEntry(version, order) =>
      if version != Version(s, s.conn) then s else ParentDispatched(s, order)
    case OtherFrees(conn) => Free(s, conn)
    case CloseAll(conns) => Closing(s, conns)
    case EndParent => Free(s.(phase := Done), s.conn)
  }

  // ---------- what every run keeps ----------

  ghost predicate Counted(s: State) {
    s.count == 1 + |s.children|
  }

  /** Sub-requests sit on connections of their own, with the version those have now. */
  ghost predicate OwnConnections(s: State) {
    && (forall id :: id in s.children ==>
          s.children[id].conn != s.conn && s.children[id].version == Version(s, s.children[id].conn))
    && (forall i, j :: i in s.children && j in s.children && i != j ==> s.children[i].conn != s.children[j].conn)
  }

  /** No queue entry is from the future. */
  ghost predicate NoneAhead(s: State) {
    forall i :: 0 <= i < |s.delay| ==> s.delay[i].version <= Version(s, s.delay[i].conn)
  }

  ghost predicate Retries(s: State, retryMax: int) {
    forall id :: id in s.children ==> s.children[id].retries == 0 || s.children[id].retries <= retryMax
  }

  /** Every sub-request added is under way or finalised, and never both or twice. */
  ghost predicate Once(s: State) {
    && (forall id :: id in s.children ==> id < s.nextId)
    && (forall id: nat :: id in s.finalised <==> id < s.nextId && id !in s.children)
    && (forall i, j :: 0 <= i < j < |s.finalised| ==> s.finalised[i] != s.finalised[j])
  }

  /** The parent runs on only when no sub-request remains; waiting for a batch, it has been
      queued once if none remains and not at all otherwise. */
  ghost predicate QueuedOnce(s: State) {
    && (s.children != map[] ==> s.phase == Waiting || Adding(s))
    && |s.children| <= s.batch
    && (s.phase == Working ==> |s.children| == s.batch)
    && s.queued == (if s.phase == Waiting && s.batch > 0 && s.children == map[] then 1 else 0)
    && (s.queued == 1 ==> Current(s, s.conn) in s.delay)
    && (!s.dying ==> multiset(s.delay)[Current(s, s.conn)] == s.queued)
  }

  /** A sub-request whose parent is dying is in the queue. */
  ghost predicate DyingQueued(s: State) {
    forall id :: id in s.children && s.children[id].parentDying ==> Current(s, s.children[id].conn) in s.delay
  }

  ghost predicate Inv(s: State, retryMax: int) {
    && !s.crashed
    && Counted(s) && OwnConnections(s) && NoneAhead(s) && Retries(s, retryMax) && Once(s)
    && QueuedOnce(s) && DyingQueued(s)
  }

  // ---------- adding ----------

  lemma AddOwn(s: State, conn: nat)
    requires OwnConnections(s) && Once(s) && Unused(s, conn)
    ensures OwnConnections(Add(s, conn))
  {
  }

  lemma AddOnce(s: State, conn: nat)
    requires Once(s)
    ensures Once(Add(s, conn)) && |Add(s, conn).children| == |s.children| + 1
  {
    var t := Add(s, conn);
    assert s.nextId !in s.children;
    assert t.children.Keys == s.children.Keys + {s.nextId};
    assert |t.children.Keys| == |s.children.Keys| + 1;
    assert t.finalised == s.finalised && t.nextId == s.nextId + 1;
    forall id: nat ensures id in t.children <==> id in s.children || id == s.nextId {}
  }

  lemma AddNoneAhead(s: State, conn: nat)
    requires NoneAhead(s)
    ensures NoneAhead(Add(s, conn))
  {
  }

  lemma AddQueued(s: State, conn: nat)
    requires QueuedOnce(s) && DyingQueued(s) && Once(s) && s.phase == Working && conn != s.conn
    ensures QueuedOnce(Add(s, conn)) && DyingQueued(Add(s, conn))
  {
    AddOnce(s, conn);
    var t := Add(s, conn);
    assert forall item :: item in s.delay ==> item in t.delay;
    assert t.children[s.nextId] == Child(conn, Version(s, conn), 0, false, Pushed(s));
  }

  lemma AddKeeps(s: State, conn: nat, retryMax: int)
    requires Inv(s, retryMax) && s.phase == Working && Unused(s, conn)
    ensures Inv(Add(s, conn), retryMax)
  {
    hide NoneAhead, QueuedOnce, DyingQueued;
    AddOwn(s, conn);
    AddOnce(s, conn);
    AddNoneAhead(s, conn);
    AddQueued(s, conn);
  }

  // ---------- finalising ----------

  /** A sub-request finalised and its connection freed, in either order. */
  function Retired(s: State, id: nat): State
    requires id in s.children
  {
    FinalizeRequest(Free(s, s.children[id].conn), id)
  }

  function Retried(s: State, id: nat, conn: nat): State
    requires id in s.children
  {
    var c, t := s.children[id], Free(s, s.children[id].conn);
    t.(children := t.children[id := Child(conn, Version(t, conn), c.retries + 1, false, Pushed(t))],
       delay := t.delay + [Current(t, conn)])
  }

  lemma FinalizeCases(s: State, id: nat, ok: bool, next: Option<nat>, retryMax: int)
    requires id in s.children && s.children[id].conn != s.conn
    ensures Finalize(s, id, ok, next, retryMax) ==
      if NeedRetry(s.children[id], ok, retryMax) && next.Some? then Retried(s, id, next.value)
      else Retired(s, id)
  {
  }

  /** Everything a queue entry says stays true when the entry is taken off the queue, but
      for the request `but` whose own entry it may have been. */
  ghost predicate DyingQueuedBut(s: State, but: nat) {
    forall id :: id in s.children && id != but && s.children[id].parentDying ==>
      Current(s, s.children[id].conn) in s.delay
  }

  /** The invariant while request `id` has its turn. */
  ghost predicate Turning(s: State, id: nat, retryMax: int) {
    && !s.crashed
    && Counted(s) && OwnConnections(s) && NoneAhead(s) && Retries(s, retryMax) && Once(s)
    && QueuedOnce(s) && DyingQueuedBut(s, id) && id in s.children && s.phase == Waiting
  }

  lemma RetiredOnce(s: State, id: nat)
    requires Once(s) && id in s.children
    ensures Once(Retired(s, id)) && |Retired(s, id).children| == |s.children| - 1
    ensures Counted(s) ==> Counted(Retired(s, id))
  {
    var t := Retired(s, id);
    assert t.children.Keys == s.children.Keys - {id};
    assert |t.children.Keys| == |s.children.Keys| - 1;
  }

  lemma RetiredOwn(s: State, id: nat, retryMax: int)
    requires OwnConnections(s) && Retries(s, retryMax) && id in s.children
    ensures OwnConnections(Retired(s, id)) && Retries(Retired(s, id), retryMax)
  {
  }

  lemma RetiredNoneAhead(s: State, id: nat)
    requires NoneAhead(s) && id in s.children
    ensures NoneAhead(Retired(s, id))
  {
  }

  lemma RetiredQueued(s: State, id: nat)
    requires OwnConnections(s) && Counted(s) && Once(s) && QueuedOnce(s)
    requires id in s.children && s.phase == Waiting
    ensures QueuedOnce(Retired(s, id))
  {
    RetiredOnce(s, id);
    var t := Retired(s, id);
    assert t.children == map[] <==> |t.children| == 0;
    assert Current(t, t.conn) == Current(s, s.conn);
    if t.count == 1 {
      assert multiset(t.delay) == multiset(s.delay) + multiset{Current(s, s.conn)};
    }
  }

  lemma RetiredDying(s: State, id: nat)
    requires OwnConnections(s) && DyingQueuedBut(s, id) && id in s.children
    ensures DyingQueued(Retired(s, id))
  {
    var t := Retired(s, id);
    assert forall item :: item in s.delay ==> item in t.delay;
    forall j | j in t.children && t.children[j].parentDying
      ensures Current(t, t.children[j].conn) in t.delay
    {
      assert Current(t, t.children[j].conn) == Current(s, s.children[j].conn);
    }
  }

  lemma RetiredKeeps(s: State, id: nat, retryMax: int)
    requires Turning(s, id, retryMax)
    ensures Inv(Retired(s, id), retryMax)
  {
    RetiredOnce(s, id);
    RetiredOwn(s, id, retryMax);
    RetiredNoneAhead(s, id);
    RetiredQueued(s, id);
    RetiredDying(s, id);
  }

  // ---------- retrying ----------

  lemma RetriedOwn(s: State, id: nat, conn: nat, retryMax: int)
    requires OwnConnections(s) && Once(s) && Counted(s) && Retries(s, retryMax) && id in s.children
    requires Unused(s, conn) || conn == s.children[id].conn
    requires s.children[id].retries < retryMax
    ensures var t := Retried(s, id, conn);
      OwnConnections(t) && Once(t) && Counted(t) && Retries(t, retryMax) && |t.children| == |s.children|
  {
    var t := Retried(s, id, conn);
    assert t.children.Keys == s.children.Keys;
    assert |t.children.Keys| == |s.children.Keys|;
  }

  lemma RetriedNoneAhead(s: State, id: nat, conn: nat)
    requires NoneAhead(s) && id in s.children
    ensures NoneAhead(Retried(s, id, conn))
  {
  }

  lemma RetriedQueued(s: State, id: nat, conn: nat)
    requires OwnConnections(s) && Once(s) && QueuedOnce(s) && DyingQueuedBut(s, id)
    requires id in s.children && s.phase == Waiting
    requires Unused(s, conn) || conn == s.children[id].conn
    ensures QueuedOnce(Retried(s, id, conn)) && DyingQueued(Retried(s, id, conn))
  {
    var t := Retried(s, id, conn);
    assert t.children.Keys == s.children.Keys;
    assert |t.children.Keys| == |s.children.Keys|;
    assert Current(t, t.conn) == Current(s, s.conn);
    assert multiset(t.delay) == multiset(s.delay) + multiset{Current(t, conn)};
    assert forall item :: item in s.delay ==> item in t.delay;
    forall j | j in t.children && t.children[j].parentDying
      ensures Current(t, t.children[j].conn) in t.delay
    {
      assert j != id && Current(t, t.children[j].conn) == Current(s, s.children[j].conn);
    }
  }

  /** Finalising keeps the invariant, whether the request is retried or not. */
  lemma FinalizeKeeps(s: State, id: nat, ok: bool, next: Option<nat>, retryMax: int)
    requires Turning(s, id, retryMax) && MayTake(s, id, next)
    ensures var t := Finalize(s, id, ok, next, retryMax); Inv(t, retryMax) && t.phase == Waiting
  {
    assert s.children[id].conn != s.conn;
    hide Retired, Retried, Finalize;
    FinalizeCases(s, id, ok, next, retryMax);
    if NeedRetry(s.children[id], ok, retryMax) && next.Some? {
      RetriedOwn(s, id, next.value, retryMax);
      RetriedNoneAhead(s, id, next.value);
      RetriedQueued(s, id, next.value);
      StillWaiting(s, id, next.value);
    } else {
      RetiredKeeps(s, id, retryMax);
      StillWaiting(s, id, 0);
    }
  }

  lemma StillWaiting(s: State, id: nat, conn: nat)
    requires id in s.children
    ensures Retired(s, id).phase == s.phase && Retired(s, id).crashed == s.crashed
    ensures Retried(s, id, conn).phase == s.phase && Retried(s, id, conn).crashed == s.crashed
  {
  }

  /** A turn keeps the invariant, finalising once or twice, unless it loses its request. */
  lemma TurnKeeps(s: State, id: nat, turn: Turn, retryMax: int)
    requires Turning(s, id, retryMax) && TurnAllowed(s, id, turn, retryMax) && !turn.Suspended?
    ensures Inv(ChildTurn(s, id, turn, retryMax), retryMax) <==> !LosesRequest(s, id, turn, retryMax)
  {
    hide Finalize, Inv, Turning;
    match turn {
      case Finished(ok, next) => FinalizeKeeps(s, id, ok, next, retryMax);
      case Twice(next, rest) =>
        FinalizeKeeps(s, id, false, next, retryMax);
        var first := Finalize(s, id, false, next, retryMax);
        CrashBreaks(first, retryMax);
        if !LosesRequest(s, id, turn, retryMax) && !rest.Reading? {
          InvIsTurning(first, id, retryMax);
          FinalizeKeeps(first, id, if rest.Again? then false else rest.ok, rest.next, retryMax);
        }
    }
  }

  lemma CrashBreaks(s: State, retryMax: int)
    ensures !Inv(s.(crashed := true), retryMax)
  {
  }

  lemma InvIsTurning(s: State, id: nat, retryMax: int)
    requires Inv(s, retryMax) && id in s.children && s.phase == Waiting
    ensures Turning(s, id, retryMax)
  {
  }

  // ---------- the parent is dispatched ----------

  lemma {:induction false} ItemsAre(s: State, order: seq<nat>)
    requires forall i :: 0 <= i < |order| ==> order[i] in s.children
    ensures |Items(s, order)| == |order|
    ensures forall i :: 0 <= i < |order| ==> Items(s, order)[i] == Current(s, s.children[order[i]].conn)
  {
    if order != [] {
      ItemsAre(s, order[..|order| - 1]);
    }
  }

  /** Everything but what the queue says of the parent. */
  ghost predicate ParentTurning(s: State, retryMax: int) {
    && !s.crashed
    && Counted(s) && OwnConnections(s) && NoneAhead(s) && Retries(s, retryMax) && Once(s) && DyingQueued(s)
    && (s.children != map[] ==> s.phase == Waiting)
    && |s.children| <= s.batch
    && !Adding(s)
  }

  /** The sub-requests' flags are set and nothing else about them changes. */
  lemma KillChildren(s: State, order: seq<nat>, retryMax: int)
    requires Counted(s) && OwnConnections(s) && Retries(s, retryMax) && Once(s)
    requires Lists(s, order) && s.dying && s.children != map[]
    ensures var t := ParentDispatched(s, order);
      Counted(t) && OwnConnections(t) && Retries(t, retryMax) && Once(t)
      && t.children.Keys == s.children.Keys && |t.children| == |s.children|
      && forall id :: id in s.children ==> t.children[id] == s.children[id].(parentDying := true)
  {
    hide Items;
    var t := ParentDispatched(s, order);
    assert t.children.Keys == s.children.Keys;
    assert |t.children.Keys| == |s.children.Keys|;
  }

  lemma KillNoneAhead(s: State, order: seq<nat>)
    requires NoneAhead(s) && Lists(s, order) && s.dying && s.children != map[]
    ensures NoneAhead(ParentDispatched(s, order))
  {
    hide Items;
    var t := ParentDispatched(s, order);
    ItemsAre(s, order);
    forall i | 0 <= i < |t.delay| ensures t.delay[i].version <= Version(t, t.delay[i].conn) {
      if i >= |s.delay| {
        assert t.delay[i] == Current(s, s.children[order[i - |s.delay|]].conn);
      }
    }
  }

  lemma KillQueues(s: State, order: seq<nat>)
    requires Lists(s, order) && s.dying && s.children != map[]
    ensures var t := ParentDispatched(s, order);
      forall id :: id in t.children ==> Current(t, t.children[id].conn) in t.delay
  {
    hide Items;
    var t := ParentDispatched(s, order);
    ItemsAre(s, order);
    forall id | id in t.children ensures Current(t, t.children[id].conn) in t.delay {
      assert id in order;
      var i :| 0 <= i < |order| && order[i] == id;
      assert t.delay[|s.delay| + i] == Current(s, s.children[id].conn);
    }
  }

  lemma KillKeeps(s: State, order: seq<nat>, retryMax: int)
    requires ParentTurning(s, retryMax) && Lists(s, order) && s.dying && s.children != map[] && s.queued == 0
    ensures Inv(ParentDispatched(s, order), retryMax)
  {
    KillChildren(s, order, retryMax);
    KillNoneAhead(s, order);
    KillQueues(s, order);
    hide NoneAhead, Counted, OwnConnections, Retries, Once, Items, Lists;
    var t := ParentDispatched(s, order);
    assert |t.children| != 0;
    assert QueuedOnce(t);
    assert DyingQueued(t);
  }

  /** A parent that runs on has no sub-request left, and no entry of its own left queued
      unless it is dying. */
  lemma ResumeKeeps(s: State, order: seq<nat>, retryMax: int)
    requires ParentTurning(s, retryMax) && Lists(s, order) && s.children == map[]
    requires s.phase == Waiting || s.queued == 0
    requires !s.dying ==> multiset(s.delay)[Current(s, s.conn)] == 0
    ensures Inv(ParentDispatched(s, order), retryMax)
  {
  }

  // ---------- every step ----------

  lemma PoppedQueue(s: State)
    requires s.delay != []
    ensures multiset(s.delay) == multiset{s.delay[0]} + multiset(Popped(s).delay)
    ensures forall item :: item in s.delay && item != s.delay[0] ==> item in Popped(s).delay
    ensures forall item :: item in Popped(s).delay ==> item in s.delay
  {
    assert s.delay == [s.delay[0]] + s.delay[1..];
  }

  lemma PoppedNoneAhead(s: State)
    requires NoneAhead(s) && s.delay != []
    ensures NoneAhead(Popped(s))
  {
  }

  lemma PoppedKeeps(s: State, retryMax: int)
    requires Inv(s, retryMax) && s.delay != []
    ensures var t := Popped(s);
      !t.crashed && Counted(t) && OwnConnections(t) && NoneAhead(t) && Retries(t, retryMax) && Once(t)
    ensures multiset(s.delay) == multiset{s.delay[0]} + multiset(Popped(s).delay)
    ensures forall item :: item in s.delay && item != s.delay[0] ==> item in Popped(s).delay
    ensures forall item :: item in Popped(s).delay ==> item in s.delay
  {
    hide NoneAhead, QueuedOnce, DyingQueued;
    PoppedQueue(s);
    PoppedNoneAhead(s);
  }

  lemma PopParent(s: State, order: seq<nat>, retryMax: int)
    requires Inv(s, retryMax) && !Adding(s) && s.delay != [] && Lists(s, order)
    requires s.delay[0] == Current(s, s.conn)
    ensures Inv(ParentDispatched(Popped(s), order), retryMax)
  {
    var t := Popped(s);
    PoppedKeeps(s, retryMax);
    assert DyingQueued(t);
    assert Lists(t, order);
    assert !s.dying ==> s.queued == 1 && s.children == map[];
    hide NoneAhead, Counted, OwnConnections, Retries, Once, Items, Lists, DyingQueued;
    if s.children != map[] {
      assert s.dying && s.queued == 0;
      KillKeeps(t, order, retryMax);
    } else {
      assert multiset(s.delay)[Current(s, s.conn)] == 1 + multiset(t.delay)[Current(t, t.conn)];
      ResumeKeeps(t, order, retryMax);
    }
  }

  /** A queued sub-request has its turn without its entry. */
  lemma PopChild(s: State, id: nat, retryMax: int)
    requires Inv(s, retryMax) && !Adding(s) && s.delay != [] && id in s.children
    requires s.delay[0] == Current(s, s.children[id].conn)
    ensures Turning(Popped(s), id, retryMax)
  {
    var t := Popped(s);
    PoppedKeeps(s, retryMax);
    assert s.children[id].conn != s.conn;
    assert s.phase == Waiting;
    assert Current(t, t.conn) == Current(s, s.conn) != s.delay[0];
    assert multiset(t.delay)[Current(t, t.conn)] == multiset(s.delay)[Current(s, s.conn)];
  }

  /** An entry that is stale, or of a connection this request does not use. */
  lemma PopOther(s: State, retryMax: int)
    requires Inv(s, retryMax) && s.delay != []
    requires s.delay[0] != Current(s, s.conn) && !ActsOnChild(s)
    ensures Inv(Popped(s), retryMax)
  {
    var t := Popped(s);
    PoppedKeeps(s, retryMax);
    assert multiset(t.delay)[Current(t, t.conn)] == multiset(s.delay)[Current(s, s.conn)];
    forall id | id in t.children && t.children[id].parentDying
      ensures Current(t, t.children[id].conn) in t.delay
    {
      assert Current(s, s.children[id].conn) in s.delay;
      assert !Unused(s, s.children[id].conn);
    }
    assert QueuedOnce(t) && DyingQueued(t);
  }

  lemma PopKeeps(s: State, id: nat, turn: Turn, order: seq<nat>, frees: bool, retryMax: int)
    requires Inv(s, retryMax) && Enabled(s, PopDelay(id, turn, order, frees), retryMax)
    ensures var a := PopDelay(id, turn, order, frees);
      Inv(Do(s, a, retryMax), retryMax) <==> !UsesLostRequest(s, a, retryMax)
  {
    var item, t := s.delay[0], Popped(s);
    hide Finalize, ParentDispatched, NoneAhead, OwnConnections, Once, Counted, Retries, QueuedOnce, LosesRequest;
    if item == Current(s, s.conn) {
      PopParent(s, order, retryMax);
    } else if ActsOnChild(s) {
      PopChild(s, id, retryMax);
      PopAllows(s, id, turn, retryMax);
      if turn.Suspended? {
        assert DyingQueued(t);
        assert !LosesRequest(t, id, turn, retryMax) by { SuspendedLosesNothing(t, id, retryMax); }
      } else {
        TurnKeeps(t, id, turn, retryMax);
      }
    } else {
      PopOther(s, retryMax);
      if item == Current(s, item.conn) {
        assert Unused(t, item.conn) by { assert Unused(s, item.conn); }
        OtherFreesKeeps(t, item.conn, retryMax);
      }
    }
  }

  lemma SuspendedLosesNothing(s: State, id: nat, retryMax: int)
    requires id in s.children
    ensures !LosesRequest(s, id, Suspended, retryMax)
  {
  }

  /** Who is left, and on which connections, whatever the queue holds. */
  lemma FinalizeConns(s: State, id: nat, ok: bool, next: Option<nat>, retryMax: int)
    requires id in s.children
    ensures var t, retried := Finalize(s, id, ok, next, retryMax),
                              NeedRetry(s.children[id], ok, retryMax) && next.Some?;
      && t.conn == s.conn
      && t.children.Keys == (if retried then s.children.Keys else s.children.Keys - {id})
      && forall j :: j in t.children ==>
           t.children[j].conn == if retried && j == id then next.value else s.children[j].conn
  {
  }

  lemma FinalizeIgnoresQueue(s: State, t: State, id: nat, ok: bool, next: Option<nat>, retryMax: int)
    requires id in s.children && t == s.(delay := t.delay, popped := t.popped)
    ensures var a, b := Finalize(s, id, ok, next, retryMax), Finalize(t, id, ok, next, retryMax);
      && a.conn == b.conn && a.children.Keys == b.children.Keys
      && forall j :: j in a.children ==> a.children[j].conn == b.children[j].conn
  {
    hide *;
    FinalizeConns(s, id, ok, next, retryMax);
    FinalizeConns(t, id, ok, next, retryMax);
  }

  lemma PopAllows(s: State, id: nat, turn: Turn, retryMax: int)
    requires s.delay != [] && TurnAllowed(s, id, turn, retryMax)
    ensures TurnAllowed(Popped(s), id, turn, retryMax)
  {
    var t := Popped(s);
    assert forall conn :: Unused(t, conn) <==> Unused(s, conn);
    if turn.Twice? && !turn.rest.Reading? {
      FinalizeIgnoresQueue(s, t, id, false, turn.next, retryMax);
      hide Finalize;
      var a, b := Finalize(s, id, false, turn.next, retryMax), Finalize(t, id, false, turn.next, retryMax);
      assert forall conn :: Unused(a, conn) <==> Unused(b, conn);
    }
  }

  lemma RunUpstreamsKeeps(s: State, retryMax: int)
    requires Inv(s, retryMax) && s.phase == Working
    ensures Inv(s.(phase := Waiting), retryMax)
  {
    var t := s.(phase := Waiting);
    assert |s.children| == 0 <==> s.children == map[];
    assert forall conn :: Unused(t, conn) <==> Unused(s, conn);
  }

  lemma EndKeeps(s: State, retryMax: int)
    requires Inv(s, retryMax) && s.phase == Working && s.batch == 0
    ensures Inv(Free(s.(phase := Done), s.conn), retryMax)
  {
    var t := Free(s.(phase := Done), s.conn);
    assert s.children == map[];
    assert forall i :: 0 <= i < |s.delay| ==> s.delay[i].conn == s.conn ==> s.delay[i].version < Version(t, s.conn);
  }

  /** A parent waiting for a batch is dispatched by something that is neither a hang-up nor a
      time-out nor the end of the batch, and takes it for that: an error that epoll reports
      alone, or an entry that an earlier or surplus call of `resume_async` left with the
      version the connection still has. */
  predicate BareEvent(s: State, a: Action) {
    && !s.dying && s.phase == Waiting && s.batch > 0
    && ((a.ParentEvent? && !a.exception) || (a.ResumeEntry? && a.version == Version(s, s.conn)))
  }

  lemma EventKeeps(s: State, exception: bool, order: seq<nat>, retryMax: int)
    requires Inv(s, retryMax) && Enabled(s, ParentEvent(exception, order), retryMax)
    requires !BareEvent(s, ParentEvent(exception, order))
    ensures Inv(Do(s, ParentEvent(exception, order), retryMax), retryMax)
  {
    var t := s.(dying := s.dying || exception);
    assert ParentTurning(t, retryMax) && Lists(t, order) by {
      hide Lists;
      assert forall conn :: Unused(t, conn) <==> Unused(s, conn);
    }
    assert |s.children| == 0 <==> s.children == map[];
    hide NoneAhead, Counted, OwnConnections, Retries, Once, Items, Lists, DyingQueued;
    if s.children != map[] {
      KillKeeps(t, order, retryMax);
    } else {
      ResumeKeeps(t, order, retryMax);
    }
  }

  lemma BareEventBreaks(s: State, a: Action, retryMax: int)
    requires Inv(s, retryMax) && Enabled(s, a, retryMax) && BareEvent(s, a)
    ensures var t := Do(s, a, retryMax);
      t.phase == Working
      && if s.children != map[] then t.children == s.children else Current(t, t.conn) in t.delay
    ensures !Inv(Do(s, a, retryMax), retryMax)
  {
    assert |s.children| == 0 <==> s.children == map[];
  }

  /** A resume entry is an event without an exception, or stale. */
  lemma EntryKeeps(s: State, version: nat, order: seq<nat>, retryMax: int)
    requires Inv(s, retryMax) && Enabled(s, ResumeEntry(version, order), retryMax)
    requires !BareEvent(s, ResumeEntry(version, order))
    ensures Inv(Do(s, ResumeEntry(version, order), retryMax), retryMax)
  {
    if version == Version(s, s.conn) && s.phase != Done {
      assert s.(dying := s.dying || false) == s;
      EventKeeps(s, false, order, retryMax);
    }
  }

  lemma OtherFreesKeeps(s: State, conn: nat, retryMax: int)
    requires Inv(s, retryMax) && Unused(s, conn)
    ensures Inv(Free(s, conn), retryMax)
  {
    var t := Free(s, conn);
    assert forall other :: Unused(t, other) <==> Unused(s, other);
    assert Current(t, t.conn) == Current(s, s.conn);
    assert forall id :: id in s.children ==> Current(t, s.children[id].conn) == Current(s, s.children[id].conn);
  }

  lemma ClosingNoneAhead(s: State, conns: seq<nat>)
    requires NoneAhead(s)
    ensures NoneAhead(Closing(s, conns))
  {
    var t := Closing(s, conns);
    forall i | 0 <= i < |t.delay| ensures t.delay[i].version <= Version(t, t.delay[i].conn) {
      assert t.delay[i] == if i < |s.delay| then s.delay[i] else Current(s, conns[i - |s.delay|]);
    }
  }

  lemma ClosingKeeps(s: State, conns: seq<nat>, retryMax: int)
    requires Inv(s, retryMax)
    ensures Inv(Closing(s, conns), retryMax)
  {
    ClosingNoneAhead(s, conns);
    ClosingQueues(s, conns);
    hide NoneAhead, DyingQueued, QueuedOnce;
  }

  lemma ClosingQueues(s: State, conns: seq<nat>)
    requires QueuedOnce(s) && DyingQueued(s)
    ensures QueuedOnce(Closing(s, conns)) && DyingQueued(Closing(s, conns))
  {
    var t, more := Closing(s, conns), CurrentAll(s, conns);
    assert forall item :: item in t.delay <==> item in s.delay || item in more;
    if s.conn !in conns {
      forall i | 0 <= i < |more| ensures more[i] != Current(s, s.conn) {
        assert more[i].conn == conns[i];
      }
      assert Current(s, s.conn) !in more;
      assert multiset(t.delay) == multiset(s.delay) + multiset(more);
    }
  }

  /** A sub-request's turn goes on after it has finalised, with a request that is deleted or on
      a connection that has none. */
  predicate UsesLostRequest(s: State, a: Action, retryMax: int) {
    match a
    case ChildEvent(id, turn) => id in s.children && LosesRequest(s, id, turn, retryMax)
    case PopDelay(id, turn, _, _) =>
      ActsOnChild(s) && id in s.children && LosesRequest(Popped(s), id, turn, retryMax)
    case _ => false
  }

  predicate Breaks(s: State, a: Action, retryMax: int) {
    BareEvent(s, a) || UsesLostRequest(s, a, retryMax)
  }

  lemma ChildEventKeeps(s: State, id: nat, turn: Turn, retryMax: int)
    requires Inv(s, retryMax) && Enabled(s, ChildEvent(id, turn), retryMax)
    ensures Inv(ChildTurn(s, id, turn, retryMax), retryMax) <==> !LosesRequest(s, id, turn, retryMax)
  {
    if !turn.Suspended? {
      assert s.phase == Waiting;
      InvIsTurning(s, id, retryMax);
      hide *;
      TurnKeeps(s, id, turn, retryMax);
    }
  }

  lemma StepKeeps(s: State, a: Action, retryMax: int)
    requires Inv(s, retryMax) && Enabled(s, a, retryMax) && !BareEvent(s, a)
    ensures Inv(Do(s, a, retryMax), retryMax) <==> !UsesLostRequest(s, a, retryMax)
  {
    hide Finalize, ParentDispatched, NoneAhead, OwnConnections, Once, Counted, Retries, QueuedOnce, DyingQueued,
      LosesRequest;
    match a {
      case AddUpstream(conn) => AddKeeps(s, conn, retryMax);
      case RunUpstreams => RunUpstreamsKeeps(s, retryMax);
      case ChildEvent(id, turn) => ChildEventKeeps(s, id, turn, retryMax);
      case ParentEvent(exception, order) => EventKeeps(s, exception, order, retryMax);
      case PopDelay(id, turn, order, frees) => PopKeeps(s, id, turn, order, frees, retryMax);
      case ResumeEntry(version, order) => EntryKeeps(s, version, order, retryMax);
      case OtherFrees(conn) => OtherFreesKeeps(s, conn, retryMax);
      case CloseAll(conns) => ClosingKeeps(s, conns, retryMax);
      case EndParent => EndKeeps(s, retryMax);
    }
  }

  /** The invariant is kept by every step but two, and those always break it. */
  lemma KeptIff(s: State, a: Action, retryMax: int)
    requires Inv(s, retryMax) && Enabled(s, a, retryMax)
    ensures Inv(Do(s, a, retryMax), retryMax) <==> !Breaks(s, a, retryMax)
  {
    if BareEvent(s, a) {
      BareEventBreaks(s, a, retryMax);
    } else {
      StepKeeps(s, a, retryMax);
    }
  }

  // ---------- whole runs ----------

  ghost predicate Run(s: State, acts: seq<Action>, retryMax: int)
    decreases |acts|, 0
  {
    acts == [] ||
    (Run(s, acts[..|acts| - 1], retryMax)
     && var t, a := After(s, acts[..|acts| - 1], retryMax), acts[|acts| - 1];
        Enabled(t, a, retryMax) && !Breaks(t, a, retryMax))
  }

  ghost function After(s: State, acts: seq<Action>, retryMax: int): State
    requires Run(s, acts, retryMax)
    decreases |acts|, 1
  {
    if acts == [] then s
    else Do(After(s, acts[..|acts| - 1], retryMax), acts[|acts| - 1], retryMax)
  }

  lemma {:induction false} RunKeepsInv(conn: nat, versions: map<nat, nat>, acts: seq<Action>, retryMax: int)
    requires Run(Initial(conn, versions), acts, retryMax)
    ensures Inv(After(Initial(conn, versions), acts, retryMax), retryMax)
  {
    if acts != [] {
      RunKeepsInv(conn, versions, acts[..|acts| - 1], retryMax);
      hide Inv, Do, Breaks, Enabled;
      KeptIff(After(Initial(conn, versions), acts[..|acts| - 1], retryMax), acts[|acts| - 1], retryMax);
    }
  }

  /** On every run m_count is one more than the sub-requests under way; every sub-request
      added is either under way or was finalised, exactly once. */
  lemma CountAndOnce(conn: nat, versions: map<nat, nat>, acts: seq<Action>, retryMax: int, id: nat)
    requires Run(Initial(conn, versions), acts, retryMax)
    ensures var t := After(Initial(conn, versions), acts, retryMax);
      && t.count == 1 + |t.children|
      && multiset(t.finalised)[id] == (if id < t.nextId && id !in t.children then 1 else 0)
  {
    RunKeepsInv(conn, versions, acts, retryMax);
    var t := After(Initial(conn, versions), acts, retryMax);
    DistinctCount(t.finalised, id);
  }

  lemma {:induction false} DistinctCount(xs: seq<nat>, x: nat)
    requires forall i, j :: 0 <= i < j < |xs| ==> xs[i] != xs[j]
    ensures multiset(xs)[x] == if x in xs then 1 else 0
  {
    if xs != [] {
      DistinctCount(xs[1..], x);
      assert xs == [xs[0]] + xs[1..];
    }
  }

  /** No sub-request makes more than 1 + retry_maxnum attempts, and every attempt that ends
      is the last one or leaves fewer to make. */
  lemma AttemptsBounded(conn: nat, versions: map<nat, nat>, acts: seq<Action>, retryMax: int, id: nat,
                        ok: bool, next: Option<nat>)
    requires Run(Initial(conn, versions), acts, retryMax)
    requires id in After(Initial(conn, versions), acts, retryMax).children
    ensures var s := After(Initial(conn, versions), acts, retryMax);
      var t := Finalize(s, id, ok, next, retryMax);
      && 1 + s.children[id].retries <= 1 + (if retryMax > 0 then retryMax else 0)
      && (id in t.children ==> t.children[id].retries == s.children[id].retries + 1 <= retryMax)
      && (id !in t.children ==> t.finalised == s.finalised + [id])
      && (ok || s.children[id].parentDying ==> id !in t.children)
  {
    RunKeepsInv(conn, versions, acts, retryMax);
  }

  /** A parent that waits runs on only when no sub-request remains, and then, unless it is
      dying or nothing was added for it to wait for, because it was queued, once. */
  lemma ResumedWhenDone(conn: nat, versions: map<nat, nat>, acts: seq<Action>, retryMax: int)
    requires acts != [] && Run(Initial(conn, versions), acts, retryMax)
    ensures var s := After(Initial(conn, versions), acts[..|acts| - 1], retryMax);
      var t := After(Initial(conn, versions), acts, retryMax);
      s.phase == Waiting && t.phase != Waiting ==>
        && s.children == map[] && t.children == map[]
        && (s.batch > 0 ==> s.queued == 1 && Current(s, s.conn) in s.delay)
        && (!t.dying ==> Current(t, t.conn) !in t.delay)
  {
    var rest := acts[..|acts| - 1];
    RunKeepsInv(conn, versions, rest, retryMax);
    var s, a := After(Initial(conn, versions), rest, retryMax), acts[|acts| - 1];
    hide Inv, Do, Breaks, Enabled;
    if s.phase == Waiting {
      ResumedStep(s, a, retryMax);
    }
  }

  lemma ResumedStep(s: State, a: Action, retryMax: int)
    requires Inv(s, retryMax) && Enabled(s, a, retryMax) && !Breaks(s, a, retryMax) && s.phase == Waiting
    ensures var t := Do(s, a, retryMax);
      t.phase != Waiting ==>
        && s.children == map[] && t.children == map[]
        && (s.batch > 0 ==> s.queued == 1 && Current(s, s.conn) in s.delay)
        && (!t.dying ==> Current(t, t.conn) !in t.delay)
  {
    KeptIff(s, a, retryMax);
    PhaseChange(s, a, retryMax);
    hide Do, Enabled, Breaks, NoneAhead, Counted, OwnConnections, Retries, Once, DyingQueued, QueuedOnce;
    var t := Do(s, a, retryMax);
    if t.phase != Waiting {
      RunningOn(s, t);
    }
  }

  lemma TurnPhase(s: State, id: nat, turn: Turn, retryMax: int)
    requires id in s.children
    ensures ChildTurn(s, id, turn, retryMax).phase == s.phase
  {
    if turn.Twice? {
      FinalizePhase(s, id, false, turn.next, retryMax);
    }
  }

  lemma FinalizePhase(s: State, id: nat, ok: bool, next: Option<nat>, retryMax: int)
    requires id in s.children
    ensures Finalize(s, id, ok, next, retryMax).phase == s.phase
  {
  }

  lemma PhaseChange(s: State, a: Action, retryMax: int)
    requires Enabled(s, a, retryMax) && s.phase == Waiting
    ensures var t := Do(s, a, retryMax);
      t.phase != Waiting ==> t.phase == Working && t.children == s.children && t.conn == s.conn && t.batch == 0
  {
    hide ChildTurn, Items;
    match a {
      case ChildEvent(id, turn) => TurnPhase(s, id, turn, retryMax);
      case PopDelay(id, turn, order, frees) =>
        if ActsOnChild(s) {
          TurnPhase(Popped(s), id, turn, retryMax);
        }
      case _ =>
    }
  }

  lemma RunningOn(s: State, t: State)
    requires QueuedOnce(s) && QueuedOnce(t) && s.phase == Waiting && t.phase == Working && t.batch == 0
    requires t.children == s.children && t.conn == s.conn
    ensures s.children == map[] && t.children == map[]
    ensures s.batch > 0 ==> s.queued == 1 && Current(s, s.conn) in s.delay
    ensures !t.dying ==> Current(t, t.conn) !in t.delay
  {
    assert |s.children| == 0 <==> s.children == map[];
  }

  /** While sub-requests remain the parent waits for them and is not queued, unless dying;
      when none remains it is queued. */
  lemma WaitingIsQueued(conn: nat, versions: map<nat, nat>, acts: seq<Action>, retryMax: int)
    requires Run(Initial(conn, versions), acts, retryMax)
    ensures var t := After(Initial(conn, versions), acts, retryMax);
      t.phase == Waiting && t.batch > 0 ==>
        && t.queued == (if t.children == map[] then 1 else 0)
        && (t.children == map[] ==> Current(t, t.conn) in t.delay)
        && (t.children != map[] && !t.dying ==> Current(t, t.conn) !in t.delay)
  {
    RunKeepsInv(conn, versions, acts, retryMax);
  }

  /** An entry the dispatcher acts on has its connection's present version: the connection is
      the parent's, one that this request does not use, or that of exactly one sub-request,
      which took it at that version. */
  lemma ActedOnIsCurrent(conn: nat, versions: map<nat, nat>, acts: seq<Action>, retryMax: int)
    requires Run(Initial(conn, versions), acts, retryMax)
    ensures var t := After(Initial(conn, versions), acts, retryMax);
      t.delay != [] && t.delay[0] == Current(t, t.delay[0].conn) ==>
        || t.delay[0].conn == t.conn
        || Unused(t, t.delay[0].conn)
        || exists id :: id in t.children && t.children[id].conn == t.delay[0].conn
             && t.children[id].version == t.delay[0].version
             && forall other :: other in t.children && other != id ==> t.children[other].conn != t.delay[0].conn
  {
    RunKeepsInv(conn, versions, acts, retryMax);
  }

  // ---------- entries that act on a sub-request they were not queued for ----------

  /** Entry `i` acts on sub-request `id`, but was queued before that took its connection. */
  predicate Foreign(s: State, id: nat, i: nat) {
    && id in s.children && i < |s.delay| && s.delay[i] == Current(s, s.children[id].conn)
    && s.popped + i < s.children[id].since
  }

  ghost predicate NoForeign(s: State) {
    && (forall id :: id in s.children ==> s.children[id].since <= Pushed(s))
    && (forall id: nat, i: nat :: !Foreign(s, id, i))
  }

  /** The same of all sub-requests but one. */
  ghost predicate NoForeignBut(s: State, but: nat) {
    && (forall id :: id in s.children ==> s.children[id].since <= Pushed(s))
    && (forall id: nat, i: nat :: id != but ==> !Foreign(s, id, i))
  }

  /** A retry gets a connection with an entry of its present version in the queue. */
  predicate RetryTakesQueued(s: State, id: nat, ok: bool, next: Option<nat>, retryMax: int)
    requires id in s.children
  {
    && NeedRetry(s.children[id], ok, retryMax) && next.Some?
    && Current(Free(s, s.children[id].conn), next.value) in s.delay
  }

  predicate TurnTakesQueued(s: State, id: nat, turn: Turn, retryMax: int)
    requires id in s.children
  {
    match turn
    case Suspended => false
    case Finished(ok, next) => RetryTakesQueued(s, id, ok, next, retryMax)
    case Twice(next, rest) =>
      if LosesRequest(s, id, turn, retryMax) || rest.Reading? then RetryTakesQueued(s, id, false, next, retryMax)
      else RetryTakesQueued(Finalize(s, id, false, next, retryMax), id, if rest.Again? then false else rest.ok,
                            rest.next, retryMax)
  }

  /** A sub-request takes a connection, first or for a retry, that was queued while idle. */
  predicate TakesQueued(s: State, a: Action, retryMax: int)
    requires a.ChildEvent? ==> a.id in s.children
    requires a.PopDelay? && ActsOnChild(s) ==> a.id in s.children
  {
    match a
    case AddUpstream(conn) => Current(s, conn) in s.delay
    case ChildEvent(id, turn) => TurnTakesQueued(s, id, turn, retryMax)
    case PopDelay(id, turn, _, _) => ActsOnChild(s) && TurnTakesQueued(Popped(s), id, turn, retryMax)
    case _ => false
  }

  /** The queue is longer at its end, and whoever of the old sub-requests is left is as it was. */
  ghost predicate Extends(s: State, t: State) {
    && s.popped == t.popped && |s.delay| <= |t.delay| && t.delay[..|s.delay|] == s.delay
  }

  predicate Undisturbed(s: State, t: State, id: nat) {
    && id in t.children && id in s.children
    && t.children[id].conn == s.children[id].conn && t.children[id].since == s.children[id].since
    && Version(t, t.children[id].conn) == Version(s, s.children[id].conn)
  }

  lemma SameForeign(s: State, t: State, but: nat)
    requires NoForeignBut(s, but) && Extends(s, t)
    requires forall id :: id in t.children ==> id != but && Undisturbed(s, t, id)
    ensures NoForeign(t)
  {
    forall id: nat, i: nat ensures !Foreign(t, id, i) {
      if id in t.children && i < |s.delay| {
        assert t.delay[i] == s.delay[i];
        assert !Foreign(s, id, i);
      }
    }
  }

  /** A sub-request takes a connection now: entries of it queued before are foreign, and there
      are no others. */
  lemma TakingForeign(s: State, t: State, id: nat, conn: nat)
    requires NoForeignBut(s, id) && Extends(s, t)
    requires id in t.children && t.children[id].conn == conn && t.children[id].since == Pushed(s)
    requires forall j :: j in t.children && j != id ==> Undisturbed(s, t, j)
    ensures NoForeignBut(t, id)
    ensures NoForeign(t) <==> Current(t, conn) !in s.delay
  {
    forall j: nat, i: nat | j != id ensures !Foreign(t, j, i) {
      if j in t.children && i < |s.delay| {
        assert t.delay[i] == s.delay[i];
        assert !Foreign(s, j, i);
      }
    }
    if Current(t, conn) in s.delay {
      var i :| 0 <= i < |s.delay| && s.delay[i] == Current(t, conn);
      assert t.delay[i] == s.delay[i];
      assert Foreign(t, id, i);
    } else {
      forall i: nat ensures !Foreign(t, id, i) {
        if i < |s.delay| {
          assert t.delay[i] == s.delay[i];
        }
      }
    }
  }

  lemma AddForeign(s: State, conn: nat, retryMax: int)
    requires Inv(s, retryMax) && NoForeign(s) && Unused(s, conn)
    ensures NoForeign(Add(s, conn)) <==> Current(s, conn) !in s.delay
  {
    var t := Add(s, conn);
    assert s.nextId !in s.children;
    assert t.delay[..|s.delay|] == s.delay;
    TakingForeign(s, t, s.nextId, conn);
  }

  lemma FinalizeForeign(s: State, id: nat, ok: bool, next: Option<nat>, retryMax: int)
    requires OwnConnections(s) && NoForeignBut(s, id) && id in s.children && MayTake(s, id, next)
    ensures var t := Finalize(s, id, ok, next, retryMax);
      NoForeignBut(t, id) && (NoForeign(t) <==> !RetryTakesQueued(s, id, ok, next, retryMax))
  {
    FinalizeCases(s, id, ok, next, retryMax);
    hide Finalize, Retired, Retried, NoForeign, NoForeignBut;
    if NeedRetry(s.children[id], ok, retryMax) && next.Some? {
      RetriedForeign(s, id, next.value);
    } else {
      RetiredForeign(s, id);
    }
  }

  lemma RetriedForeign(s: State, id: nat, conn: nat)
    requires OwnConnections(s) && NoForeignBut(s, id) && id in s.children
    ensures var t := Retried(s, id, conn);
      NoForeignBut(t, id) && (NoForeign(t) <==> Current(Free(s, s.children[id].conn), conn) !in s.delay)
  {
    var t := Retried(s, id, conn);
    assert t.delay[..|s.delay|] == s.delay;
    TakingForeign(s, t, id, conn);
  }

  lemma RetiredForeign(s: State, id: nat)
    requires OwnConnections(s) && NoForeignBut(s, id) && id in s.children
    ensures NoForeignBut(Retired(s, id), id) && NoForeign(Retired(s, id))
  {
    var t := Retired(s, id);
    assert t.delay[..|s.delay|] == s.delay;
    SameForeign(s, t, id);
  }

  lemma TurnForeign(s: State, id: nat, turn: Turn, retryMax: int)
    requires Turning(s, id, retryMax) && NoForeign(s) && TurnAllowed(s, id, turn, retryMax)
    ensures NoForeign(ChildTurn(s, id, turn, retryMax)) <==> !TurnTakesQueued(s, id, turn, retryMax)
  {
    match turn {
      case Suspended =>
      case Finished(ok, next) => FinalizeForeign(s, id, ok, next, retryMax);
      case Twice(next, rest) =>
        var first := Finalize(s, id, false, next, retryMax);
        FinalizeForeign(s, id, false, next, retryMax);
        FinalizeKeeps(s, id, false, next, retryMax);
        CrashForeign(first);
        hide Finalize, NoForeign, NoForeignBut, RetryTakesQueued;
        if !rest.Reading? && !LosesRequest(s, id, turn, retryMax) {
          FinalizeForeign(first, id, if rest.Again? then false else rest.ok, rest.next, retryMax);
        }
    }
  }

  lemma CrashForeign(s: State)
    ensures NoForeign(s.(crashed := true)) <==> NoForeign(s)
  {
    var t := s.(crashed := true);
    assert forall id: nat, i: nat :: Foreign(t, id, i) <==> Foreign(s, id, i);
  }

  lemma PoppedForeign(s: State)
    requires NoForeign(s) && s.delay != []
    ensures NoForeign(Popped(s))
  {
    var t := Popped(s);
    forall id: nat, i: nat ensures !Foreign(t, id, i) {
      if id in t.children && i < |t.delay| {
        assert t.delay[i] == s.delay[i + 1];
        assert !Foreign(s, id, i + 1);
      }
    }
  }

  lemma FreeForeign(s: State, conn: nat)
    requires NoForeign(s) && Unused(s, conn)
    ensures NoForeign(Free(s, conn))
  {
    var t := Free(s, conn);
    assert forall id: nat, i: nat :: Foreign(t, id, i) ==> Foreign(s, id, i);
  }

  /** Steps that leave every sub-request on its connection and at most queue more entries. */
  lemma QueueingForeign(s: State, t: State)
    requires NoForeign(s) && s.popped == t.popped && t.versions == s.versions
    requires |s.delay| <= |t.delay| && t.delay[..|s.delay|] == s.delay
    requires t.children.Keys == s.children.Keys
    requires forall id :: id in s.children ==>
      t.children[id].conn == s.children[id].conn && t.children[id].since == s.children[id].since
    ensures NoForeign(t)
  {
    forall id: nat, i: nat ensures !Foreign(t, id, i) {
      if id in t.children && i < |s.delay| {
        assert t.delay[i] == s.delay[i];
        assert !Foreign(s, id, i);
      }
    }
  }

  lemma DispatchForeign(s: State, order: seq<nat>)
    requires NoForeign(s) && Lists(s, order)
    ensures NoForeign(ParentDispatched(s, order))
  {
    var t := ParentDispatched(s, order);
    if s.dying && s.children != map[] {
      assert t.delay == s.delay + Items(s, order);
    }
    QueueingForeign(s, t);
  }

  lemma EndForeign(s: State)
    requires NoForeign(s) && s.children == map[]
    ensures NoForeign(Free(s.(phase := Done), s.conn))
  {
  }

  lemma EventForeign(s: State, id: nat, turn: Turn, retryMax: int)
    requires Inv(s, retryMax) && NoForeign(s) && Enabled(s, ChildEvent(id, turn), retryMax)
    ensures NoForeign(ChildTurn(s, id, turn, retryMax)) <==> !TurnTakesQueued(s, id, turn, retryMax)
  {
    assert id in s.children && s.phase == Waiting;
    InvIsTurning(s, id, retryMax);
    assert TurnAllowed(s, id, turn, retryMax);
    hide *;
    TurnForeign(s, id, turn, retryMax);
  }

  lemma PopForeign(s: State, id: nat, turn: Turn, order: seq<nat>, frees: bool, retryMax: int)
    requires Inv(s, retryMax) && NoForeign(s) && Enabled(s, PopDelay(id, turn, order, frees), retryMax)
    ensures var a := PopDelay(id, turn, order, frees);
      NoForeign(Do(s, a, retryMax)) <==> !TakesQueued(s, a, retryMax)
  {
    var t := Popped(s);
    PoppedForeign(s);
    hide Finalize, ParentDispatched, NoForeign, ChildTurn, TurnTakesQueued, Inv, TurnAllowed;
    if s.delay[0] == Current(s, s.conn) {
      assert Lists(t, order);
      DispatchForeign(t, order);
    } else if ActsOnChild(s) {
      PopChild(s, id, retryMax);
      PopAllows(s, id, turn, retryMax);
      TurnForeign(t, id, turn, retryMax);
    } else if s.delay[0] == Current(s, s.delay[0].conn) {
      assert Unused(t, s.delay[0].conn) by { assert Unused(s, s.delay[0].conn); }
      FreeForeign(t, s.delay[0].conn);
    }
  }

  /** Exactly then does a queue without entries that act on a sub-request they were not queued
      for come to have one: when a sub-request takes a connection which is in the queue at its
      present version, because closing all connections queued it while it was idle. */
  lemma ForeignIff(s: State, a: Action, retryMax: int)
    requires Inv(s, retryMax) && NoForeign(s) && Enabled(s, a, retryMax)
    ensures NoForeign(Do(s, a, retryMax)) <==> !TakesQueued(s, a, retryMax)
  {
    hide Finalize, ParentDispatched, NoForeign, NoneAhead, LosesRequest, TurnTakesQueued, TurnAllowed;
    match a {
      case AddUpstream(conn) => AddForeign(s, conn, retryMax);
      case RunUpstreams => QueueingForeign(s, s.(phase := Waiting));
      case ChildEvent(id, turn) => EventForeign(s, id, turn, retryMax);
      case ParentEvent(exception, order) =>
        var t := s.(dying := s.dying || exception);
        QueueingForeign(s, t);
        DispatchForeign(t, order);
      case PopDelay(id, turn, order, frees) => PopForeign(s, id, turn, order, frees, retryMax);
      case ResumeEntry(version, order) => DispatchForeign(s, order);
      case OtherFrees(conn) => FreeForeign(s, conn);
      case CloseAll(conns) => QueueingForeign(s, Closing(s, conns));
      case EndParent => EndForeign(s);
    }
  }

  /** No step of the run makes a sub-request take a connection that is in the queue. */
  ghost predicate CleanRun(s: State, acts: seq<Action>, retryMax: int)
    requires Run(s, acts, retryMax)
  {
    acts == [] ||
    (CleanRun(s, acts[..|acts| - 1], retryMax)
     && !TakesQueued(After(s, acts[..|acts| - 1], retryMax), acts[|acts| - 1], retryMax))
  }

  ghost predicate NeverForeign(s: State, acts: seq<Action>, retryMax: int)
    requires Run(s, acts, retryMax)
  {
    NoForeign(After(s, acts, retryMax)) && (acts != [] ==> NeverForeign(s, acts[..|acts| - 1], retryMax))
  }

  /** On any run, no entry is ever queued that acts on a sub-request it was not queued for if
      and only if no sub-request takes a connection that is in the queue. */
  lemma {:induction false} NeverForeignIff(conn: nat, versions: map<nat, nat>, acts: seq<Action>, retryMax: int)
    requires Run(Initial(conn, versions), acts, retryMax)
    ensures var s := Initial(conn, versions);
      NeverForeign(s, acts, retryMax) <==> CleanRun(s, acts, retryMax)
  {
    var s := Initial(conn, versions);
    if acts != [] {
      var rest := acts[..|acts| - 1];
      NeverForeignIff(conn, versions, rest, retryMax);
      RunKeepsInv(conn, versions, rest, retryMax);
      hide Inv, Do, Breaks, Enabled, NoForeign, TakesQueued;
      if NeverForeign(s, rest, retryMax) {
        assert NoForeign(After(s, rest, retryMax));
        ForeignIff(After(s, rest, retryMax), acts[|acts| - 1], retryMax);
      }
    }
  }

  /** Then what the dispatcher runs of a sub-request, it runs by an entry queued since that took
      its connection. */
  lemma ActedOnIsOwn(conn: nat, versions: map<nat, nat>, acts: seq<Action>, retryMax: int, id: nat)
    requires Run(Initial(conn, versions), acts, retryMax) && CleanRun(Initial(conn, versions), acts, retryMax)
    ensures var t := After(Initial(conn, versions), acts, retryMax);
      ActsOnChild(t) && id in t.children && t.children[id].conn == t.delay[0].conn ==>
        t.children[id].since <= t.popped
  {
    NeverForeignIff(conn, versions, acts, retryMax);
    var t := After(Initial(conn, versions), acts, retryMax);
    assert NoForeign(t) && !Foreign(t, id, 0);
  }

  // ---------- how many attempts are made ----------

  /** A sub-request is retried if and only if its attempt failed, its parent has not had it
      killed, it has retries left and there is a connection for it. Then it is under way on that
      connection, with one retry more, queued there under the version the connection has; the
      one it had is given back, and nothing else changes. */
  lemma RetriedIff(s: State, id: nat, ok: bool, next: Option<nat>, retryMax: int)
    requires id in s.children
    ensures var c, t := s.children[id], Finalize(s, id, ok, next, retryMax);
      && (id in t.children <==> !ok && !c.parentDying && c.retries < retryMax && next.Some?)
      && (id in t.children ==>
            && t.children[id].conn == next.value && t.children[id].version == Version(t, next.value)
            && t.children[id].retries == c.retries + 1 && !t.children[id].parentDying
            && t.delay == s.delay + [Item(next.value, Version(t, next.value))]
            && t.count == s.count && t.finalised == s.finalised)
      && (id !in t.children ==> t.count == s.count - 1 && t.finalised == s.finalised + [id])
      && t.versions == s.versions[c.conn := Version(s, c.conn) + 1]
  {
  }

  /** The turn that a step gives to sub-request `id`. */
  function TurnIn(s: State, a: Action, id: nat): Turn {
    if (a.ChildEvent? || (a.PopDelay? && ActsOnChild(s))) && a.id == id then a.turn else Suspended
  }

  /** How many attempts of it end in a turn. */
  function Ends(turn: Turn): nat {
    match turn
    case Suspended => 0
    case Finished(_, _) => 1
    case Twice(_, rest) => if rest.Reading? then 1 else 2
  }

  /** They all fail, with a connection there for the next. */
  predicate Fails(turn: Turn) {
    match turn
    case Suspended => true
    case Finished(ok, next) => !ok && next.Some?
    case Twice(next, rest) =>
      next.Some? && (rest.Again? ==> rest.next.Some?) && (rest.Read? ==> !rest.ok && rest.next.Some?)
  }

  function Allowance(retryMax: int): nat {
    1 + if retryMax > 0 then retryMax else 0
  }

  lemma TurnEnds(s: State, id: nat, turn: Turn, retryMax: int)
    requires id in s.children && !LosesRequest(s, id, turn, retryMax)
    requires s.children[id].retries == 0 || s.children[id].retries <= retryMax
    ensures var c, t := s.children[id], ChildTurn(s, id, turn, retryMax);
      && (id in t.children ==> t.children[id].retries == c.retries + Ends(turn))
      && (id !in t.children && !c.parentDying && Fails(turn) ==> c.retries + Ends(turn) == Allowance(retryMax))
      && (forall j :: j in t.children && j != id ==> j in s.children && t.children[j] == s.children[j])
      && (forall j :: j in s.children && j != id ==> j in t.children)
  {
    match turn {
      case Suspended =>
      case Finished(ok, next) => RetriedIff(s, id, ok, next, retryMax);
      case Twice(next, rest) =>
        var first := Finalize(s, id, false, next, retryMax);
        RetriedIff(s, id, false, next, retryMax);
        if !rest.Reading? {
          RetriedIff(first, id, if rest.Again? then false else rest.ok, rest.next, retryMax);
        }
        hide Finalize;
    }
    hide Finalize, LosesRequest;
    TurnOthers(s, id, turn, retryMax);
  }

  lemma FinalizeOthers(s: State, id: nat, ok: bool, next: Option<nat>, retryMax: int)
    requires id in s.children
    ensures var t := Finalize(s, id, ok, next, retryMax);
      && (forall j :: j in t.children && j != id ==> j in s.children && t.children[j] == s.children[j])
      && (forall j :: j in s.children && j != id ==> j in t.children)
  {
  }

  lemma TurnOthers(s: State, id: nat, turn: Turn, retryMax: int)
    requires id in s.children
    ensures var t := ChildTurn(s, id, turn, retryMax);
      && (forall j :: j in t.children && j != id ==> j in s.children && t.children[j] == s.children[j])
      && (forall j :: j in s.children && j != id ==> j in t.children)
  {
    hide Finalize;
    match turn {
      case Suspended =>
      case Finished(ok, next) => FinalizeOthers(s, id, ok, next, retryMax);
      case Twice(next, rest) =>
        var first := Finalize(s, id, false, next, retryMax);
        FinalizeOthers(s, id, false, next, retryMax);
        if id in first.children && !rest.Reading? {
          FinalizeOthers(first, id, if rest.Again? then false else rest.ok, rest.next, retryMax);
        }
    }
  }

  /** Steps that are no turn of any sub-request leave the retries as they are. */
  lemma OtherSteps(s: State, a: Action, retryMax: int)
    requires Inv(s, retryMax) && Enabled(s, a, retryMax) && !a.ChildEvent? && !(a.PopDelay? && ActsOnChild(s))
    ensures var t := Do(s, a, retryMax);
      && (forall j :: j in s.children ==> j in t.children && t.children[j].retries == s.children[j].retries)
      && (forall j :: j in t.children && j !in s.children ==> t.children[j].retries == 0 && j == s.nextId)
  {
    hide NoneAhead, QueuedOnce, DyingQueued, OwnConnections, Items;
  }

  lemma StepEnds(s: State, a: Action, id: nat, retryMax: int)
    requires Inv(s, retryMax) && Enabled(s, a, retryMax) && !Breaks(s, a, retryMax)
    ensures var t, n := Do(s, a, retryMax), Ends(TurnIn(s, a, id));
      && (id in s.children && id in t.children ==> t.children[id].retries == s.children[id].retries + n)
      && (id !in s.children ==> n == 0 && (id in t.children ==> t.children[id].retries == 0 && id == s.nextId))
      && (id in s.children && id !in t.children && !s.children[id].parentDying && Fails(TurnIn(s, a, id)) ==>
            s.children[id].retries + n == Allowance(retryMax))
  {
    assert Retries(s, retryMax);
    if a.ChildEvent? {
      hide Inv, LosesRequest, ChildTurn, Finalize;
      TurnEnds(s, a.id, a.turn, retryMax);
    } else if a.PopDelay? && ActsOnChild(s) {
      hide Inv, LosesRequest, ChildTurn, Finalize;
      TurnEnds(Popped(s), a.id, a.turn, retryMax);
    } else {
      OtherSteps(s, a, retryMax);
      hide Inv, Do, Enabled, Breaks;
    }
  }

  /** The attempts of sub-request `id` that have ended in a run. */
  ghost function Ended(s: State, acts: seq<Action>, id: nat, retryMax: int): nat
    requires Run(s, acts, retryMax)
  {
    if acts == [] then 0 else
    var rest := acts[..|acts| - 1];
    Ended(s, rest, id, retryMax) + Ends(TurnIn(After(s, rest, retryMax), acts[|acts| - 1], id))
  }

  /** All of them failed, a connection was always there for the next, and the parent never had
      the sub-request killed. */
  ghost predicate KeepsFailing(s: State, acts: seq<Action>, id: nat, retryMax: int)
    requires Run(s, acts, retryMax)
  {
    acts == [] ||
    var rest := acts[..|acts| - 1];
    var t := After(s, rest, retryMax);
    && KeepsFailing(s, rest, id, retryMax)
    && Fails(TurnIn(t, acts[|acts| - 1], id)) && (id in t.children ==> !t.children[id].parentDying)
  }

  /** What the attempts ended say of a sub-request; `failing` is whether all of them failed. */
  ghost predicate Settled(t: State, id: nat, ended: nat, failing: bool, retryMax: int) {
    && (id in t.children ==> ended == t.children[id].retries)
    && (id in t.finalised && failing ==> ended == Allowance(retryMax))
    && (id >= t.nextId ==> ended == 0)
  }

  lemma StepSettles(s: State, a: Action, id: nat, ended: nat, failing: bool, still: bool, retryMax: int)
    requires Inv(s, retryMax) && Enabled(s, a, retryMax) && !Breaks(s, a, retryMax)
    requires Settled(s, id, ended, failing, retryMax)
    requires still ==> failing && Fails(TurnIn(s, a, id)) && (id in s.children ==> !s.children[id].parentDying)
    ensures Settled(Do(s, a, retryMax), id, ended + Ends(TurnIn(s, a, id)), still, retryMax)
  {
    hide Do, Breaks, Enabled, TurnIn, Ends, Fails, Inv;
    var t := Do(s, a, retryMax);
    StepEnds(s, a, id, retryMax);
    StepGrows(s, a, retryMax);
    KeptIff(s, a, retryMax);
    UnderWayOrDone(s, id, retryMax);
    UnderWayOrDone(t, id, retryMax);
  }

  /** A sub-request added is under way or finalised. */
  lemma UnderWayOrDone(s: State, id: nat, retryMax: int)
    requires Inv(s, retryMax)
    ensures id in s.finalised <==> id < s.nextId && id !in s.children
    ensures id in s.children ==> id < s.nextId
  {
    assert Once(s);
  }

  lemma {:induction false} RunSettles(conn: nat, versions: map<nat, nat>, acts: seq<Action>, retryMax: int, id: nat)
    requires Run(Initial(conn, versions), acts, retryMax)
    ensures var s := Initial(conn, versions);
      Settled(After(s, acts, retryMax), id, Ended(s, acts, id, retryMax), KeepsFailing(s, acts, id, retryMax), retryMax)
  {
    var s := Initial(conn, versions);
    if acts != [] {
      var rest, a := acts[..|acts| - 1], acts[|acts| - 1];
      RunSettles(conn, versions, rest, retryMax, id);
      RunKeepsInv(conn, versions, rest, retryMax);
      OneMoreStep(s, acts, id, retryMax);
      hide *;
      StepSettles(After(s, rest, retryMax), a, id, Ended(s, rest, id, retryMax),
                  KeepsFailing(s, rest, id, retryMax), KeepsFailing(s, acts, id, retryMax), retryMax);
    }
  }

  /** On every run a sub-request under way has ended as many attempts as it has retries, and one
      whose attempts all fail, with connections there and the parent well, makes exactly
      1 + retry_maxnum of them. */
  lemma AttemptsExact(conn: nat, versions: map<nat, nat>, acts: seq<Action>, retryMax: int, id: nat)
    requires Run(Initial(conn, versions), acts, retryMax)
    ensures var s := Initial(conn, versions); var t := After(s, acts, retryMax);
      && (id in t.children ==> Ended(s, acts, id, retryMax) == t.children[id].retries)
      && (id in t.finalised && KeepsFailing(s, acts, id, retryMax) ==>
            Ended(s, acts, id, retryMax) == 1 + (if retryMax > 0 then retryMax else 0))
  {
    RunSettles(conn, versions, acts, retryMax, id);
    hide Run, After, Ended, KeepsFailing;
  }

  lemma OneMoreStep(s: State, acts: seq<Action>, id: nat, retryMax: int)
    requires acts != [] && Run(s, acts, retryMax)
    ensures var rest, a := acts[..|acts| - 1], acts[|acts| - 1];
      var t := After(s, rest, retryMax);
      && Run(s, rest, retryMax) && Enabled(t, a, retryMax) && !Breaks(t, a, retryMax)
      && After(s, acts, retryMax) == Do(t, a, retryMax)
      && Ended(s, acts, id, retryMax) == Ended(s, rest, id, retryMax) + Ends(TurnIn(t, a, id))
      && (KeepsFailing(s, acts, id, retryMax) ==>
            && KeepsFailing(s, rest, id, retryMax)
            && Fails(TurnIn(t, a, id)) && (id in t.children ==> !t.children[id].parentDying))
  {
    hide Do, Enabled, Breaks;
  }

  lemma StepGrows(s: State, a: Action, retryMax: int)
    requires Enabled(s, a, retryMax)
    ensures var t := Do(s, a, retryMax);
      s.nextId <= t.nextId && forall id: nat :: s.nextId <= id < t.nextId ==> id in t.children
  {
    hide Items, ChildTurn;
    if a.ChildEvent? || (a.PopDelay? && ActsOnChild(s)) {
      TurnNext(if a.PopDelay? then Popped(s) else s, a.id, a.turn, retryMax);
    }
  }

  lemma TurnNext(s: State, id: nat, turn: Turn, retryMax: int)
    requires id in s.children
    ensures ChildTurn(s, id, turn, retryMax).nextId == s.nextId
  {
    if turn.Twice? {
      FinalizeNext(s, id, false, turn.next, retryMax);
    }
  }

  lemma FinalizeNext(s: State, id: nat, ok: bool, next: Option<nat>, retryMax: int)
    requires id in s.children
    ensures Finalize(s, id, ok, next, retryMax).nextId == s.nextId
  {
  }

  // ---------- every attempt has its entry ----------

  /** The entry that was queued when the sub-request took its connection, with that connection
      and the version it has, is in its place until it is popped. */
  predicate HasEntry(s: State, id: nat) {
    id in s.children ==>
      var c := s.children[id];
      c.since < Pushed(s) && (s.popped <= c.since ==> s.delay[c.since - s.popped] == Current(s, c.conn))
  }

  lemma EntryStays(s: State, t: State, id: nat)
    requires HasEntry(s, id) && Extends(s, t) && (id in t.children ==> Undisturbed(s, t, id))
    ensures HasEntry(t, id)
  {
    if id in t.children && s.popped <= s.children[id].since {
      var i := s.children[id].since - s.popped;
      assert t.delay[i] == s.delay[i];
    }
  }

  lemma AddEntry(s: State, conn: nat, id: nat)
    requires HasEntry(s, id)
    ensures HasEntry(Add(s, conn), id)
  {
    var t := Add(s, conn);
    if id != s.nextId {
      assert t.delay[..|s.delay|] == s.delay;
      EntryStays(s, t, id);
    }
  }

  lemma FinalizeEntry(s: State, who: nat, ok: bool, next: Option<nat>, retryMax: int, id: nat)
    requires OwnConnections(s) && HasEntry(s, id) && who in s.children && MayTake(s, who, next)
    ensures HasEntry(Finalize(s, who, ok, next, retryMax), id)
  {
    FinalizeCases(s, who, ok, next, retryMax);
    var t := Finalize(s, who, ok, next, retryMax);
    assert t.delay[..|s.delay|] == s.delay;
    if id != who {
      EntryStays(s, t, id);
    }
  }

  lemma TurnEntry(s: State, who: nat, turn: Turn, retryMax: int, id: nat)
    requires Turning(s, who, retryMax) && HasEntry(s, id) && TurnAllowed(s, who, turn, retryMax)
    ensures HasEntry(ChildTurn(s, who, turn, retryMax), id)
  {
    hide HasEntry, Finalize, NoneAhead, QueuedOnce, DyingQueuedBut;
    match turn {
      case Suspended =>
      case Finished(ok, next) => FinalizeEntry(s, who, ok, next, retryMax, id);
      case Twice(next, rest) =>
        var first := Finalize(s, who, false, next, retryMax);
        FinalizeEntry(s, who, false, next, retryMax, id);
        FinalizeKeeps(s, who, false, next, retryMax);
        CrashedEntry(first, id);
        if !rest.Reading? && !LosesRequest(s, who, turn, retryMax) {
          FinalizeEntry(first, who, if rest.Again? then false else rest.ok, rest.next, retryMax, id);
        }
    }
  }

  lemma CrashedEntry(s: State, id: nat)
    requires HasEntry(s, id)
    ensures HasEntry(s.(crashed := true), id)
  {
  }

  lemma PoppedEntry(s: State, id: nat)
    requires HasEntry(s, id) && s.delay != []
    ensures HasEntry(Popped(s), id)
  {
  }

  lemma FreeEntry(s: State, conn: nat, id: nat)
    requires HasEntry(s, id) && Unused(s, conn)
    ensures HasEntry(Free(s, conn), id)
  {
  }

  lemma DispatchEntry(s: State, order: seq<nat>, id: nat)
    requires HasEntry(s, id) && Lists(s, order)
    ensures HasEntry(ParentDispatched(s, order), id)
  {
    var t := ParentDispatched(s, order);
    if s.dying && s.children != map[] {
      assert t.delay == s.delay + Items(s, order);
    }
    EntryStays(s, t, id);
  }

  lemma PopEntry(s: State, who: nat, turn: Turn, order: seq<nat>, frees: bool, retryMax: int, id: nat)
    requires Inv(s, retryMax) && HasEntry(s, id) && Enabled(s, PopDelay(who, turn, order, frees), retryMax)
    ensures HasEntry(Do(s, PopDelay(who, turn, order, frees), retryMax), id)
  {
    var t := Popped(s);
    PoppedEntry(s, id);
    hide HasEntry, Finalize, ParentDispatched, ChildTurn, Inv, TurnAllowed;
    if s.delay[0] == Current(s, s.conn) {
      assert Lists(t, order);
      DispatchEntry(t, order, id);
    } else if ActsOnChild(s) {
      PopChild(s, who, retryMax);
      PopAllows(s, who, turn, retryMax);
      TurnEntry(t, who, turn, retryMax, id);
    } else if s.delay[0] == Current(s, s.delay[0].conn) {
      assert Unused(t, s.delay[0].conn) by { assert Unused(s, s.delay[0].conn); }
      FreeEntry(t, s.delay[0].conn, id);
    }
  }

  lemma EventEntry(s: State, who: nat, turn: Turn, retryMax: int, id: nat)
    requires Inv(s, retryMax) && HasEntry(s, id) && Enabled(s, ChildEvent(who, turn), retryMax)
    ensures HasEntry(ChildTurn(s, who, turn, retryMax), id)
  {
    assert who in s.children && s.phase == Waiting;
    InvIsTurning(s, who, retryMax);
    assert TurnAllowed(s, who, turn, retryMax);
    hide *;
    TurnEntry(s, who, turn, retryMax, id);
  }

  lemma StepEntry(s: State, a: Action, retryMax: int, id: nat)
    requires Inv(s, retryMax) && HasEntry(s, id) && Enabled(s, a, retryMax)
    ensures HasEntry(Do(s, a, retryMax), id)
  {
    hide Finalize, ParentDispatched, ChildTurn, NoneAhead, LosesRequest, TurnAllowed, DyingQueued;
    match a {
      case AddUpstream(conn) => AddEntry(s, conn, id);
      case RunUpstreams =>
      case ChildEvent(who, turn) => EventEntry(s, who, turn, retryMax, id);
      case ParentEvent(exception, order) => DispatchEntry(s.(dying := s.dying || exception), order, id);
      case PopDelay(who, turn, order, frees) => PopEntry(s, who, turn, order, frees, retryMax, id);
      case ResumeEntry(version, order) => DispatchEntry(s, order, id);
      case OtherFrees(conn) => FreeEntry(s, conn, id);
      case CloseAll(conns) => EntryStays(s, Closing(s, conns), id);
      case EndParent => assert s.children == map[];
    }
  }

  lemma {:induction false} RunHasEntry(conn: nat, versions: map<nat, nat>, acts: seq<Action>, retryMax: int, id: nat)
    requires Run(Initial(conn, versions), acts, retryMax)
    ensures HasEntry(After(Initial(conn, versions), acts, retryMax), id)
  {
    if acts != [] {
      var rest := acts[..|acts| - 1];
      RunHasEntry(conn, versions, rest, retryMax, id);
      RunKeepsInv(conn, versions, rest, retryMax);
      hide Inv, Do, Breaks, Enabled, HasEntry;
      StepEntry(After(Initial(conn, versions), rest, retryMax), acts[|acts| - 1], retryMax, id);
    }
  }

  /** On every run each attempt, the first or a retry, has an entry of its own in the queue, in
      the order in which they were queued, and is run when that entry is popped. */
  lemma AttemptIsRun(conn: nat, versions: map<nat, nat>, acts: seq<Action>, retryMax: int, id: nat)
    requires Run(Initial(conn, versions), acts, retryMax)
    requires id in After(Initial(conn, versions), acts, retryMax).children
    ensures var t := After(Initial(conn, versions), acts, retryMax); var c := t.children[id];
      && c.since < t.popped + |t.delay|
      && (t.popped <= c.since ==> t.delay[c.since - t.popped] == Item(c.conn, Version(t, c.conn)))
      && (t.popped == c.since ==> ActsOnChild(t) && t.delay[0].conn == c.conn)
  {
    RunHasEntry(conn, versions, acts, retryMax, id);
    RunKeepsInv(conn, versions, acts, retryMax);
    var t := After(Initial(conn, versions), acts, retryMax);
    assert t.children[id].conn != t.conn;
    hide Run, After, Inv;
  }
}
