/** The timer index: a multimap from deadlines to events, and in every event a flag and an
    iterator that must agree with it. */
module Timer {

  const MAX_EPOLL_WAIT_TIME := 1000

  class CoEvent {
    var flagTimerSet: bool
    var timerNode: nat        // the iterator: the number of the event's node

    constructor ()
      ensures !flagTimerSet
    {
      flagTimerSet, timerNode := false, 0;
    }

    /** CoEvent::reset clears the flag whether or not a node for the event is in the index. */
    method Reset()
      modifies this`flagTimerSet
      ensures !flagTimerSet
    {
      flagTimerSet := false;
    }
  }

  /** A node of the multimap; `id` counts insertions. */
  datatype Node = Node(deadline: int, event: CoEvent, id: nat)

  // ---------- the multimap on values ----------

  predicate Before(a: Node, b: Node) {
    a.deadline < b.deadline || (a.deadline == b.deadline && a.id < b.id)
  }

  ghost predicate Apart(a: Node, b: Node) {
    Before(a, b) && a.event != b.event && a.id != b.id
  }

  /** In deadline order, first in first out on ties, at most one node for an event. */
  ghost predicate Ordered(nodes: seq<Node>, next: nat) {
    && (forall i, j :: 0 <= i < j < |nodes| ==> Apart(nodes[i], nodes[j]))
    && (forall i :: 0 <= i < |nodes| ==> nodes[i].id < next)
  }

  /** multimap::insert puts an equal key after those already there. */
  function Insert(nodes: seq<Node>, n: Node): (r: seq<Node>)
    ensures |r| == |nodes| + 1
  {
    if nodes == [] || n.deadline < nodes[0].deadline then [n] + nodes
    else [nodes[0]] + Insert(nodes[1..], n)
  }

  ghost predicate Has(nodes: seq<Node>, e: CoEvent) {
    exists i :: 0 <= i < |nodes| && nodes[i].event == e
  }

  /** multimap::erase of the node of an event. */
  ghost function Without(nodes: seq<Node>, e: CoEvent): seq<Node> {
    if nodes == [] then []
    else if nodes[0].event == e then nodes[1..]
    else [nodes[0]] + Without(nodes[1..], e)
  }

  lemma {:induction false} InsertMembers(nodes: seq<Node>, n: Node)
    ensures var r := Insert(nodes, n);
      && (forall i :: 0 <= i < |r| ==> r[i] == n || r[i] in nodes)
      && (forall i :: 0 <= i < |nodes| ==> nodes[i] in r)
      && n in r
  {
    var r := Insert(nodes, n);
    if nodes == [] || n.deadline < nodes[0].deadline {
      assert r[0] == n && r[1..] == nodes;
    } else {
      var t := Insert(nodes[1..], n);
      InsertMembers(nodes[1..], n);
      assert r == [nodes[0]] + t;
      hide Insert;
      forall i | 0 <= i < |r| ensures r[i] == n || r[i] in nodes {
        assert i > 0 ==> r[i] == t[i - 1];
      }
      forall i | 0 <= i < |nodes| ensures nodes[i] in r {
        assert i > 0 ==> nodes[i] == nodes[1..][i - 1];
      }
    }
  }

  lemma NotLater(nodes: seq<Node>, e: CoEvent)
    requires nodes != [] && !Has(nodes, e)
    ensures !Has(nodes[1..], e)
  {
    forall i | 0 <= i < |nodes[1..]| ensures nodes[1..][i].event != e {
      assert nodes[1..][i] == nodes[i + 1];
    }
  }

  lemma {:induction false} WithoutAbsent(nodes: seq<Node>, e: CoEvent)
    requires !Has(nodes, e)
    ensures Without(nodes, e) == nodes
  {
    if nodes != [] {
      assert nodes[0].event != e;
      hide Has;
      NotLater(nodes, e);
      WithoutAbsent(nodes[1..], e);
    }
  }

  lemma {:induction false} EraseIsWithout(nodes: seq<Node>, e: CoEvent, k: nat)
    requires k < |nodes| && nodes[k].event == e
    requires forall i :: 0 <= i < k ==> nodes[i].event != e
    ensures nodes[..k] + nodes[k + 1..] == Without(nodes, e)
  {
    if k > 0 {
      EraseIsWithout(nodes[1..], e, k - 1);
      assert nodes[..k] + nodes[k + 1..] == [nodes[0]] + (nodes[1..][..k - 1] + nodes[1..][k..]);
    }
  }

  lemma WithoutAt(nodes: seq<Node>, e: CoEvent, k: nat, next: nat)
    requires Ordered(nodes, next) && k < |nodes| && nodes[k].event == e
    ensures Without(nodes, e) == nodes[..k] + nodes[k + 1..]
    ensures forall i :: 0 <= i < |nodes| && i != k ==> nodes[i].event != e
  {
    assert forall i :: 0 <= i < k ==> Apart(nodes[i], nodes[k]);
    assert forall i :: k < i < |nodes| ==> Apart(nodes[k], nodes[i]);
    hide Ordered, Without;
    EraseIsWithout(nodes, e, k);
  }

  lemma DropMembers<T>(s: seq<T>, k: nat)
    requires k < |s|
    ensures var r := s[..k] + s[k + 1..];
      && |r| == |s| - 1
      && (forall i :: 0 <= i < |r| ==> r[i] in s && r[i] == s[if i < k then i else i + 1])
      && (forall i :: 0 <= i < |s| && i != k ==> s[i] in r)
  {
    var r := s[..k] + s[k + 1..];
    forall i | 0 <= i < |s| && i != k ensures s[i] in r {
      assert r[if i < k then i else i - 1] == s[i];
    }
  }

  lemma WithoutKept(nodes: seq<Node>, e: CoEvent, next: nat)
    requires Ordered(nodes, next)
    ensures var r := Without(nodes, e);
      forall i :: 0 <= i < |r| ==> r[i] in nodes && r[i].event != e
  {
    if Has(nodes, e) {
      var k :| 0 <= k < |nodes| && nodes[k].event == e;
      WithoutAt(nodes, e, k, next);
      DropMembers(nodes, k);
    } else {
      WithoutAbsent(nodes, e);
    }
  }

  lemma WithoutOthers(nodes: seq<Node>, e: CoEvent, next: nat)
    requires Ordered(nodes, next)
    ensures var r := Without(nodes, e);
      forall i :: 0 <= i < |nodes| && nodes[i].event != e ==> nodes[i] in r
  {
    if Has(nodes, e) {
      var k :| 0 <= k < |nodes| && nodes[k].event == e;
      WithoutAt(nodes, e, k, next);
      DropMembers(nodes, k);
    } else {
      WithoutAbsent(nodes, e);
    }
  }

  lemma OrderedCons(n: Node, nodes: seq<Node>, next: nat)
    requires Ordered(nodes, next) && n.id < next
    requires forall i :: 0 <= i < |nodes| ==> Apart(n, nodes[i])
    ensures Ordered([n] + nodes, next)
  {
  }

  lemma {:induction false} InsertOrdered(nodes: seq<Node>, n: Node)
    requires Ordered(nodes, n.id) && !Has(nodes, n.event)
    ensures Ordered(Insert(nodes, n), n.id + 1)
  {
    if nodes != [] && n.deadline >= nodes[0].deadline {
      assert !Has(nodes[1..], n.event);
      InsertOrdered(nodes[1..], n);
      InsertMembers(nodes[1..], n);
      OrderedCons(nodes[0], Insert(nodes[1..], n), n.id + 1);
    } else {
      OrderedCons(n, nodes, n.id + 1);
    }
  }

  lemma {:induction false} WithoutOrdered(nodes: seq<Node>, e: CoEvent, next: nat)
    requires Ordered(nodes, next)
    ensures Ordered(Without(nodes, e), next)
  {
    if nodes != [] && nodes[0].event != e {
      WithoutOrdered(nodes[1..], e, next);
      WithoutKept(nodes[1..], e, next);
      WithoutOthers(nodes[1..], e, next);
      OrderedCons(nodes[0], Without(nodes[1..], e), next);
    }
  }

  lemma InsertHas(nodes: seq<Node>, n: Node, e: CoEvent)
    ensures Has(Insert(nodes, n), e) <==> e == n.event || Has(nodes, e)
  {
    InsertMembers(nodes, n);
  }

  lemma WithoutHas(nodes: seq<Node>, e: CoEvent, x: CoEvent, next: nat)
    requires Ordered(nodes, next)
    ensures Has(Without(nodes, e), x) <==> x != e && Has(nodes, x)
  {
    WithoutKept(nodes, e, next);
    WithoutOthers(nodes, e, next);
  }

  /** The node with an event's number is the event's node, and the first of the event. */
  lemma SameNode(nodes: seq<Node>, next: nat, at: nat, k: nat)
    requires Ordered(nodes, next) && at < |nodes| && k < |nodes| && nodes[at].id == nodes[k].id
    ensures at == k && nodes[..k] + nodes[k + 1..] == Without(nodes, nodes[at].event)
  {
    assert forall i :: 0 <= i < k ==> Apart(nodes[i], nodes[k]);
    EraseIsWithout(nodes, nodes[k].event, k);
  }

  // ---------- firing on values ----------

  /** What the handler of a fired event does to timers; `clock` is the time it reads. */
  datatype Op = Add(event: CoEvent, timerMs: nat, clock: int) | Del(event: CoEvent)

  datatype Index = Index(nodes: seq<Node>, next: nat)

  ghost function ApplyOp(x: Index, op: Op): Index {
    match op
    case Add(e, ms, clock) =>
      if Has(x.nodes, e) then x
      else Index(Insert(x.nodes, Node(clock + ms, e, x.next)), x.next + 1)
    case Del(e) => Index(Without(x.nodes, e), x.next)
  }

  ghost function ApplyOps(x: Index, ops: seq<Op>): Index
    decreases |ops|
  {
    if ops == [] then x else ApplyOps(ApplyOp(x, ops[0]), ops[1..])
  }

  /** The numbers of the nodes an operation deletes. */
  ghost function Deletes(x: Index, op: Op): set<nat> {
    if op.Add? then {} else set i | 0 <= i < |x.nodes| && x.nodes[i].event == op.event :: x.nodes[i].id
  }

  ghost function DeletesAll(x: Index, ops: seq<Op>): set<nat>
    decreases |ops|
  {
    if ops == [] then {} else Deletes(x, ops[0]) + DeletesAll(ApplyOp(x, ops[0]), ops[1..])
  }

  /** Timers set while firing are due after the time the firing started at. */
  ghost predicate Later(ops: seq<Op>, now: int) {
    forall i :: 0 <= i < |ops| && ops[i].Add? ==> ops[i].clock + ops[i].timerMs > now
  }

  ghost function Due(nodes: seq<Node>, now: int): seq<Node> {
    if nodes == [] then []
    else if nodes[0].deadline <= now then [nodes[0]] + Due(nodes[1..], now)
    else Due(nodes[1..], now)
  }

  ghost function Keep(nodes: seq<Node>, gone: set<nat>): (r: seq<Node>)
    ensures |r| <= |nodes|
  {
    if nodes == [] then []
    else if nodes[0].id in gone then Keep(nodes[1..], gone)
    else [nodes[0]] + Keep(nodes[1..], gone)
  }

  lemma {:induction false} KeepTwice(nodes: seq<Node>, a: set<nat>, b: set<nat>)
    ensures Keep(Keep(nodes, a), b) == Keep(nodes, a + b)
  {
    if nodes != [] {
      KeepTwice(nodes[1..], a, b);
    }
  }

  lemma {:induction false} KeepAll(nodes: seq<Node>)
    ensures Keep(nodes, {}) == nodes
  {
    if nodes != [] {
      KeepAll(nodes[1..]);
    }
  }

  lemma {:induction false} KeepOthers(nodes: seq<Node>, gone: set<nat>)
    requires forall i :: 0 <= i < |nodes| ==> nodes[i].id !in gone
    ensures Keep(nodes, gone) == nodes
  {
    if nodes != [] {
      KeepOthers(nodes[1..], gone);
    }
  }

  lemma {:induction false} DueMembers(nodes: seq<Node>, now: int)
    ensures forall i :: 0 <= i < |Due(nodes, now)| ==> Due(nodes, now)[i] in nodes
  {
    if nodes != [] {
      DueMembers(nodes[1..], now);
    }
  }

  lemma {:induction false} DueInsert(nodes: seq<Node>, n: Node, now: int)
    requires n.deadline > now
    ensures Due(Insert(nodes, n), now) == Due(nodes, now)
  {
    if nodes != [] && n.deadline >= nodes[0].deadline {
      DueInsert(nodes[1..], n, now);
    }
  }

  lemma {:induction false} DueWithout(nodes: seq<Node>, e: CoEvent, next: nat, now: int, gone: set<nat>)
    requires Ordered(nodes, next)
    requires forall i :: 0 <= i < |nodes| ==> (nodes[i].id in gone <==> nodes[i].event == e)
    ensures Due(Without(nodes, e), now) == Keep(Due(nodes, now), gone)
  {
    if nodes != [] {
      if nodes[0].event == e {
        assert forall i :: 0 < i < |nodes| ==> Apart(nodes[0], nodes[i]);
        DueMembers(nodes[1..], now);
        KeepOthers(Due(nodes[1..], now), gone);
      } else {
        DueWithout(nodes[1..], e, next, now, gone);
      }
    }
  }

  lemma OpKeepsDue(x: Index, op: Op, now: int)
    requires Ordered(x.nodes, x.next) && Later([op], now)
    ensures var y := ApplyOp(x, op);
      && Ordered(y.nodes, y.next) && y.next >= x.next
      && Due(y.nodes, now) == Keep(Due(x.nodes, now), Deletes(x, op))
  {
    match op
    case Add(e, ms, clock) =>
      KeepAll(Due(x.nodes, now));
      if !Has(x.nodes, e) {
        assert [op][0] == op;
        var n := Node(clock + ms, e, x.next);
        InsertOrdered(x.nodes, n);
        DueInsert(x.nodes, n, now);
      }
    case Del(e) =>
      WithoutOrdered(x.nodes, e, x.next);
      var gone := Deletes(x, op);
      forall i | 0 <= i < |x.nodes| ensures x.nodes[i].id in gone <==> x.nodes[i].event == e {
        assert forall j :: 0 <= j < i ==> Apart(x.nodes[j], x.nodes[i]);
        assert forall j :: i < j < |x.nodes| ==> Apart(x.nodes[i], x.nodes[j]);
      }
      DueWithout(x.nodes, e, x.next, now, gone);
  }

  lemma {:induction false} OpsKeepDue(x: Index, ops: seq<Op>, now: int)
    requires Ordered(x.nodes, x.next) && Later(ops, now)
    ensures var y := ApplyOps(x, ops);
      && Ordered(y.nodes, y.next) && y.next >= x.next
      && Due(y.nodes, now) == Keep(Due(x.nodes, now), DeletesAll(x, ops))
    decreases |ops|
  {
    if ops == [] {
      KeepAll(Due(x.nodes, now));
    } else {
      assert Later([ops[0]], now) && Later(ops[1..], now);
      OpKeepsDue(x, ops[0], now);
      OpsKeepDue(ApplyOp(x, ops[0]), ops[1..], now);
      KeepTwice(Due(x.nodes, now), Deletes(x, ops[0]), DeletesAll(ApplyOp(x, ops[0]), ops[1..]));
    }
  }

  /** What the firing loop does: the index it leaves, the nodes it fires in order, and the
      numbers of the nodes the handlers delete meanwhile. `handlers[k]` is what the handler
      of the event fired at position `k` does. */
  datatype Fired = Fired(index: Index, nodes: seq<Node>, gone: set<nat>)

  ghost function Fire(x: Index, now: int, handlers: seq<seq<Op>>): Fired
    requires Ordered(x.nodes, x.next) && AllLater(handlers, now)
    decreases |Due(x.nodes, now)|
  {
    if x.nodes == [] || x.nodes[0].deadline > now then Fired(x, [], {}) else
    var popped := Index(x.nodes[1..], x.next);
    var ops := Handler(handlers);
    OpsKeepDue(popped, ops, now);
    var r := Fire(ApplyOps(popped, ops), now, Rest(handlers));
    Fired(r.index, [x.nodes[0]] + r.nodes, DeletesAll(popped, ops) + r.gone)
  }

  ghost predicate AllLater(handlers: seq<seq<Op>>, now: int) {
    forall i :: 0 <= i < |handlers| ==> Later(handlers[i], now)
  }

  function Handler(handlers: seq<seq<Op>>): seq<Op> {
    if handlers == [] then [] else handlers[0]
  }

  function Rest(handlers: seq<seq<Op>>): seq<seq<Op>> {
    if handlers == [] then [] else handlers[1..]
  }

  /** One turn of the firing loop. */
  lemma FireTurn(x: Index, now: int, handlers: seq<seq<Op>>)
    requires Ordered(x.nodes, x.next) && AllLater(handlers, now)
    requires x.nodes != [] && x.nodes[0].deadline <= now
    ensures var y := ApplyOps(Index(x.nodes[1..], x.next), Handler(handlers));
      && Ordered(y.nodes, y.next) && AllLater(Rest(handlers), now)
      && |Due(y.nodes, now)| < |Due(x.nodes, now)|
      && Fire(x, now, handlers).index == Fire(y, now, Rest(handlers)).index
      && Fire(x, now, handlers).nodes == [x.nodes[0]] + Fire(y, now, Rest(handlers)).nodes
  {
    OpsKeepDue(Index(x.nodes[1..], x.next), Handler(handlers), now);
  }

  lemma FireStops(x: Index, now: int, handlers: seq<seq<Op>>)
    requires Ordered(x.nodes, x.next) && AllLater(handlers, now)
    requires x.nodes == [] || x.nodes[0].deadline > now
    ensures Fire(x, now, handlers) == Fired(x, [], {})
  {
  }

  ghost predicate Lacks(x: Index, id: nat) {
    id < x.next && forall i :: 0 <= i < |x.nodes| ==> x.nodes[i].id != id
  }

  lemma OpLacks(x: Index, op: Op, id: nat)
    requires Ordered(x.nodes, x.next) && Lacks(x, id)
    ensures Lacks(ApplyOp(x, op), id) && id !in Deletes(x, op)
  {
    match op
    case Add(e, ms, clock) => InsertMembers(x.nodes, Node(clock + ms, e, x.next));
    case Del(e) => WithoutKept(x.nodes, e, x.next);
      WithoutOthers(x.nodes, e, x.next);
  }

  lemma {:induction false} OpsLack(x: Index, ops: seq<Op>, id: nat, now: int)
    requires Ordered(x.nodes, x.next) && Lacks(x, id) && Later(ops, now)
    ensures Lacks(ApplyOps(x, ops), id) && id !in DeletesAll(x, ops)
    decreases |ops|
  {
    if ops != [] {
      assert Later([ops[0]], now) && Later(ops[1..], now);
      hide ApplyOp, Deletes, Lacks;
      OpKeepsDue(x, ops[0], now);
      OpLacks(x, ops[0], id);
      OpsLack(ApplyOp(x, ops[0]), ops[1..], id, now);
    }
  }

  lemma {:induction false} FireLacks(x: Index, now: int, handlers: seq<seq<Op>>, id: nat)
    requires Ordered(x.nodes, x.next) && AllLater(handlers, now) && Lacks(x, id)
    ensures id !in Fire(x, now, handlers).gone
    decreases |Due(x.nodes, now)|
  {
    if x.nodes != [] && x.nodes[0].deadline <= now {
      var popped := Index(x.nodes[1..], x.next);
      OpsKeepDue(popped, Handler(handlers), now);
      OpsLack(popped, Handler(handlers), id, now);
      FireLacks(ApplyOps(popped, Handler(handlers)), now, Rest(handlers), id);
    }
  }

  lemma {:induction false} NoneDue(nodes: seq<Node>, next: nat, now: int)
    requires Ordered(nodes, next) && (nodes != [] ==> nodes[0].deadline > now)
    ensures Due(nodes, now) == []
  {
    if |nodes| > 1 {
      assert Apart(nodes[0], nodes[1]);
      NoneDue(nodes[1..], next, now);
    }
  }

  /** Exactly the timers that were due and that no handler deleted first are fired, each
      once, in deadline order and first in first out on ties; afterwards none is due. */
  lemma {:induction false} FiresExactlyTheDue(x: Index, now: int, handlers: seq<seq<Op>>)
    requires Ordered(x.nodes, x.next) && AllLater(handlers, now)
    ensures var r := Fire(x, now, handlers);
      && r.nodes == Keep(Due(x.nodes, now), r.gone)
      && Due(r.index.nodes, now) == []
      && Ordered(r.index.nodes, r.index.next)
    decreases |Due(x.nodes, now)|
  {
    if x.nodes == [] || x.nodes[0].deadline > now {
      NoneDue(x.nodes, x.next, now);
    } else {
      var first, popped := x.nodes[0], Index(x.nodes[1..], x.next);
      var ops := Handler(handlers);
      OpsKeepDue(popped, ops, now);
      var y := ApplyOps(popped, ops);
      FiresExactlyTheDue(y, now, Rest(handlers));
      var gone, more := DeletesAll(popped, ops), Fire(y, now, Rest(handlers)).gone;
      KeepTwice(Due(popped.nodes, now), gone, more);
      assert Lacks(popped, first.id) by {
        assert forall i :: 0 < i < |x.nodes| ==> Apart(x.nodes[0], x.nodes[i]);
      }
      OpsLack(popped, ops, first.id, now);
      FireLacks(y, now, Rest(handlers), first.id);
    }
  }

  lemma {:induction false} DueIff(nodes: seq<Node>, now: int, n: Node)
    ensures n in Due(nodes, now) <==> n in nodes && n.deadline <= now
  {
    if nodes != [] {
      DueIff(nodes[1..], now, n);
    }
  }

  lemma {:induction false} KeepIff(nodes: seq<Node>, gone: set<nat>, n: Node)
    ensures n in Keep(nodes, gone) <==> n in nodes && n.id !in gone
  {
    if nodes != [] {
      KeepIff(nodes[1..], gone, n);
    }
  }

  /** A timer set for so many milliseconds fires, unless it is deleted first, in the first firing
      whose time is that much or more after it was set, and in none before. */
  lemma FiresWhenDue(x: Index, e: CoEvent, timerMs: nat, clock: int, now: int, handlers: seq<seq<Op>>)
    requires Ordered(x.nodes, x.next) && AllLater(handlers, now) && !Has(x.nodes, e)
    ensures var y := ApplyOp(x, Add(e, timerMs, clock));
      && Ordered(y.nodes, y.next)
      && var fired := Fire(y, now, handlers);
         Node(clock + timerMs, e, x.next) in fired.nodes <==> now - clock >= timerMs && x.next !in fired.gone
  {
    var n := Node(clock + timerMs, e, x.next);
    var y := ApplyOp(x, Add(e, timerMs, clock));
    InsertOrdered(x.nodes, n);
    InsertMembers(x.nodes, n);
    assert n in y.nodes;
    hide Fire, Insert, Has, Ordered, ApplyOp;
    FiresExactlyTheDue(y, now, handlers);
    DueIff(y.nodes, now, n);
    KeepIff(Due(y.nodes, now), Fire(y, now, handlers).gone, n);
  }

  // ---------- runs of all that touches timers ----------

  /** The index and the flags of the events. */
  datatype Flagged = Flagged(index: Index, flags: set<CoEvent>)

  datatype Step = Call(op: Op) | FireFirst | Reset(event: CoEvent)

  /** As coded, only the flag tells whether an event has a timer. */
  ghost function Take(s: Flagged, step: Step): Flagged {
    match step
    case Call(Add(e, ms, clock)) =>
      if e in s.flags then s
      else Flagged(Index(Insert(s.index.nodes, Node(clock + ms, e, s.index.next)), s.index.next + 1), s.flags + {e})
    case Call(Del(e)) =>
      if e !in s.flags then s
      else Flagged(s.index.(nodes := Without(s.index.nodes, e)), s.flags - {e})
    case FireFirst =>
      if s.index.nodes == [] then s
      else Flagged(s.index.(nodes := s.index.nodes[1..]), s.flags - {s.index.nodes[0].event})
    case Reset(e) => s.(flags := s.flags - {e})
  }

  ghost predicate Agree(s: Flagged) {
    && Ordered(s.index.nodes, s.index.next)
    && (forall i :: 0 <= i < |s.index.nodes| ==> s.index.nodes[i].event in s.flags)
    && (forall e :: e in s.flags ==> Has(s.index.nodes, e))
  }

  /** An event is reset only when its timer is not set. */
  predicate Tidy(s: Flagged, step: Step) {
    step.Reset? ==> step.event !in s.flags
  }

  lemma WithoutAgrees(s: Flagged, e: CoEvent)
    requires Agree(s)
    ensures Agree(Flagged(s.index.(nodes := Without(s.index.nodes, e)), s.flags - {e}))
  {
    var nodes, next := s.index.nodes, s.index.next;
    WithoutOrdered(nodes, e, next);
    WithoutKept(nodes, e, next);
    forall x | x in s.flags - {e} ensures Has(Without(nodes, e), x) {
      WithoutHas(nodes, e, x, next);
    }
  }

  lemma InsertAgrees(s: Flagged, n: Node)
    requires Agree(s) && n.event !in s.flags && n.id == s.index.next
    ensures Agree(Flagged(Index(Insert(s.index.nodes, n), n.id + 1), s.flags + {n.event}))
  {
    var nodes, r := s.index.nodes, Insert(s.index.nodes, n);
    assert !Has(nodes, n.event);
    hide Ordered, Insert, Has;
    InsertOrdered(nodes, n);
    InsertMembers(nodes, n);
    forall x | x in s.flags + {n.event} ensures Has(r, x) {
      InsertHas(nodes, n, x);
    }
    forall i | 0 <= i < |r| ensures r[i].event in s.flags + {n.event} {
      if r[i] != n {
        assert r[i] in nodes;
      }
    }
  }

  lemma CallAgrees(s: Flagged, op: Op)
    requires Agree(s)
    ensures Agree(Take(s, Call(op)))
  {
    hide Agree;
    match op {
      case Add(e, ms, clock) =>
        if e !in s.flags {
          InsertAgrees(s, Node(clock + ms, e, s.index.next));
        }
      case Del(e) =>
        WithoutAgrees(s, e);
    }
  }

  lemma FireAgrees(s: Flagged)
    requires Agree(s)
    ensures Agree(Take(s, FireFirst))
  {
    var nodes := s.index.nodes;
    if nodes != [] {
      var e := nodes[0].event;
      assert Without(nodes, e) == nodes[1..];
      WithoutAgrees(s, e);
    }
  }

  /** Every step keeps index and flags in agreement, but for a reset of an event whose timer is
      set, which never does. */
  lemma TakeAgreesIff(s: Flagged, step: Step)
    requires Agree(s)
    ensures Agree(Take(s, step)) <==> Tidy(s, step)
  {
    match step {
      case Call(op) => CallAgrees(s, op);
      case FireFirst => FireAgrees(s);
      case Reset(e) =>
        if e in s.flags {
          assert Has(s.index.nodes, e);
        }
    }
  }

  ghost predicate AlwaysAgree(s: Flagged, steps: seq<Step>)
    decreases |steps|
  {
    Agree(s) && (steps != [] ==> AlwaysAgree(Take(s, steps[0]), steps[1..]))
  }

  ghost predicate AlwaysTidy(s: Flagged, steps: seq<Step>)
    decreases |steps|
  {
    steps != [] ==> Tidy(s, steps[0]) && AlwaysTidy(Take(s, steps[0]), steps[1..])
  }

  /** On any run of adding, deleting, firing and resetting, an event's flag is set exactly when
      one node for it is in the index, after every step, if and only if every reset of an
      event comes after its timer was deleted or has fired. */
  lemma {:induction false} AlwaysAgreeIff(s: Flagged, steps: seq<Step>)
    requires Agree(s)
    ensures AlwaysAgree(s, steps) <==> AlwaysTidy(s, steps)
    decreases |steps|
  {
    if steps != [] {
      TakeAgreesIff(s, steps[0]);
      hide Take, Tidy, Agree;
      if Agree(Take(s, steps[0])) {
        AlwaysAgreeIff(Take(s, steps[0]), steps[1..]);
      }
    }
  }

  // ---------- the timer ----------

  class CoTimer {
    var timers: seq<Node>
    var nextId: nat
    ghost var events: set<CoEvent>    // every event the timer may be asked about

    /** The index and the flags agree: an event's flag is set exactly when one node for it,
        the one its iterator points at, is in the index. */
    ghost predicate Valid()
      reads this, events
    {
      && Ordered(timers, nextId)
      && (forall i :: 0 <= i < |timers| ==> timers[i].event in events && timers[i].event.timerNode == timers[i].id)
      && (forall e :: e in events ==> (e.flagTimerSet <==> Has(timers, e)))
    }

    constructor (ghost events: set<CoEvent>)
      requires forall e :: e in events ==> !e.flagTimerSet
      ensures Valid() && timers == [] && this.events == events
    {
      timers, nextId := [], 0;
      this.events := events;
    }

    /** What inserting a node for an event without one does to the index. */
    lemma InsertFits(event: CoEvent, n: Node)
      requires Valid() && event in events && !event.flagTimerSet && n.event == event && n.id == nextId
      ensures var r := Insert(timers, n);
        && Ordered(r, nextId + 1)
        && (forall i :: 0 <= i < |r| ==>
              r[i].event in events && (r[i] == n || (r[i].event != event && r[i].event.timerNode == r[i].id)))
        && (forall e :: e in events ==> (Has(r, e) <==> e == event || e.flagTimerSet))
    {
      InsertOrdered(timers, n);
      InsertMembers(timers, n);
      hide Insert;
      forall e | e in events ensures Has(Insert(timers, n), e) <==> e == event || Has(timers, e) {
        InsertHas(timers, n, e);
      }
    }

    method AddTimer(event: CoEvent, timerMs: nat, now: int)
      requires Valid() && event in events
      modifies this`timers, this`nextId, event
      ensures Valid() && event.flagTimerSet
      ensures old(event.flagTimerSet) ==> unchanged(this) && unchanged(event)
      ensures !old(event.flagTimerSet) ==> nextId == old(nextId) + 1
      ensures !old(event.flagTimerSet) ==>
        timers == Insert(old(timers), Node(now + timerMs, event, old(nextId)))
    {
      if event.flagTimerSet {
        return;
      }
      InsertFits(event, Node(now + timerMs, event, nextId));
      hide Ordered, Insert, Has;
      StartTimer(event, timerMs, now);
    }

    /** The insertion itself, which relies on no flag but the event's own. */
    method StartTimer(event: CoEvent, timerMs: nat, now: int)
      requires !event.flagTimerSet
      modifies this`timers, this`nextId, event
      ensures event.flagTimerSet && event.timerNode == old(nextId) && nextId == old(nextId) + 1
      ensures timers == Insert(old(timers), Node(now + timerMs, event, old(nextId)))
    {
      timers := Insert(timers, Node(now + timerMs, event, nextId));
      event.timerNode := nextId;
      nextId := nextId + 1;
      event.flagTimerSet := true;
    }

    /** The position of the node an event's iterator points at. */
    method Position(event: CoEvent) returns (k: nat)
      requires Valid() && Has(timers, event)
      ensures k < |timers| && timers[k].event == event
      ensures timers[..k] + timers[k + 1..] == Without(timers, event)
    {
      ghost var at :| 0 <= at < |timers| && timers[at].event == event;
      k := 0;
      while timers[k].id != event.timerNode
        invariant k <= at
        decreases |timers| - k
      {
        k := k + 1;
      }
      SameNode(timers, nextId, at, k);
    }

    /** What erasing an event's node does to the index. */
    lemma WithoutFits(event: CoEvent)
      requires Valid() && event in events
      ensures var r := Without(timers, event);
        && Ordered(r, nextId)
        && (forall i :: 0 <= i < |r| ==>
              r[i].event in events && r[i].event != event && r[i].event.timerNode == r[i].id)
        && (forall e :: e in events ==> (Has(r, e) <==> e != event && e.flagTimerSet))
    {
      WithoutOrdered(timers, event, nextId);
      WithoutKept(timers, event, nextId);
      hide Without;
      forall e | e in events ensures Has(Without(timers, event), e) <==> e != event && Has(timers, e) {
        WithoutHas(timers, event, e, nextId);
      }
    }

    method DelTimer(event: CoEvent)
      requires Valid() && event in events
      modifies this`timers, event`flagTimerSet
      ensures Valid() && !event.flagTimerSet && nextId == old(nextId)
      ensures timers == Without(old(timers), event)
    {
      hide Ordered, Without, Has;
      if !event.flagTimerSet {
        WithoutUnset(event);
        return;
      }
      WithoutFits(event);
      assert Has(timers, event);
      var k := Position(event);
      timers := timers[..k] + timers[k + 1..];
      event.flagTimerSet := false;
    }

    /** How long the next epoll_wait may sleep: exactly until the first deadline. */
    method FindTimer(now: int) returns (wait: int)
      requires Valid()
      ensures timers == [] ==> wait == MAX_EPOLL_WAIT_TIME
      ensures timers != [] ==> wait >= 0
      ensures timers != [] && wait == 0 ==> exists i :: 0 <= i < |timers| && timers[i].deadline <= now
      ensures timers != [] && wait > 0 ==>
        (forall i :: 0 <= i < |timers| ==> timers[i].deadline >= now + wait) &&
        (exists i :: 0 <= i < |timers| && timers[i].deadline == now + wait)
    {
      if timers == [] {
        return MAX_EPOLL_WAIT_TIME;
      }
      wait := 0;
      if timers[0].deadline > now {
        wait := timers[0].deadline - now;
        assert forall i :: 0 < i < |timers| ==> Apart(timers[0], timers[i]);
      }
    }

    method PopFirst() returns (n: Node)
      requires Valid() && timers != []
      modifies this`timers, timers[0].event`flagTimerSet
      ensures Valid() && n == old(timers[0]) && timers == old(timers[1..])
    {
      n := timers[0];
      assert Without(timers, n.event) == timers[1..];
      WithoutOrdered(timers, n.event, nextId);
      forall e | e in events ensures Has(timers[1..], e) <==> e != n.event && Has(timers, e) {
        WithoutHas(timers, n.event, e, nextId);
      }
      timers := timers[1..];
      n.event.flagTimerSet := false;
    }

    /** The handler of a fired event, run by the dispatcher. */
    method RunHandler(ops: seq<Op>)
      requires Valid() && forall i :: 0 <= i < |ops| ==> ops[i].event in events
      modifies this`timers, this`nextId, events
      ensures Valid() && Index(timers, nextId) == ApplyOps(old(Index(timers, nextId)), ops)
    {
      hide Ordered, Without, Insert, Has;
      assert ops[0..] == ops;
      for k := 0 to |ops|
        invariant Valid() && events == old(events)
        invariant ApplyOps(Index(timers, nextId), ops[k..]) == ApplyOps(old(Index(timers, nextId)), ops)
      {
        assert ops[k..][1..] == ops[k + 1..];
        match ops[k] {
          case Add(e, ms, clock) => AddTimer(e, ms, clock);
          case Del(e) => DelTimer(e);
        }
      }
    }

    /** Fires the timers due at `now`, the time read before the loop. It ends because each
        turn takes away a due timer and handlers add none. */
    method ProcessTimer(now: int, handlers: seq<seq<Op>>) returns (fired: seq<Node>)
      requires Valid() && AllLater(handlers, now)
      requires forall i, j :: 0 <= i < |handlers| && 0 <= j < |handlers[i]| ==> handlers[i][j].event in events
      modifies this`timers, this`nextId, events
      ensures Valid()
      ensures Index(timers, nextId) == Fire(old(Index(timers, nextId)), now, handlers).index
      ensures fired == Fire(old(Index(timers, nextId)), now, handlers).nodes
    {
      hide Fire, ApplyOps, Due, Ordered, Later, Has, Insert, Without;
      ghost var start := Index(timers, nextId);
      var left := handlers;
      fired := [];
      while timers != [] && timers[0].deadline <= now
        invariant Valid() && events == old(events) && AllLater(left, now)
        invariant forall i, j :: 0 <= i < |left| && 0 <= j < |left[i]| ==> left[i][j].event in events
        invariant Fire(Index(timers, nextId), now, left).index == Fire(start, now, handlers).index
        invariant fired + Fire(Index(timers, nextId), now, left).nodes == Fire(start, now, handlers).nodes
        decreases |Due(timers, now)|
      {
        ghost var x := Index(timers, nextId);
        FireTurn(x, now, left);
        var n := PopFirst();
        RunHandler(Handler(left));
        assert fired + ([n] + Fire(Index(timers, nextId), now, Rest(left)).nodes) ==
               fired + [n] + Fire(Index(timers, nextId), now, Rest(left)).nodes;
        fired := fired + [n];
        left := Rest(left);
      }
      FireStops(Index(timers, nextId), now, left);
    }

    /** Resetting an event keeps the agreement if and only if its timer had been deleted:
        the precondition every caller of reset must meet. */
    method ResetEvent(event: CoEvent)
      requires Valid() && event in events
      modifies event`flagTimerSet
      ensures Valid() <==> !old(event.flagTimerSet)
    {
      event.Reset();
      assert event.flagTimerSet <==> false;
    }

    /** yield_timer: the coroutine sleeps until its timer fires or something else resumes it.
        What happens to timers meanwhile is up to others; the sleep ends with none of its own. */
    method YieldTimer(sleep: CoEvent, sleepMs: nat, now: int, meanwhile: seq<Op>)
      requires Valid() && sleep in events
      requires forall i :: 0 <= i < |meanwhile| ==> meanwhile[i].event in events
      modifies this`timers, this`nextId, events
      ensures Valid() && !sleep.flagTimerSet
      ensures var x := if old(sleep.flagTimerSet) then old(Index(timers, nextId))
                       else Index(Insert(old(timers), Node(now + sleepMs, sleep, old(nextId))), old(nextId) + 1);
        timers == Without(ApplyOps(x, meanwhile).nodes, sleep)
    {
      hide Ordered, Without, Insert, Has, ApplyOps;
      AddTimer(sleep, sleepMs, now);
      RunHandler(meanwhile);
      if sleep.flagTimerSet {
        DelTimer(sleep);
      } else {
        WithoutUnset(sleep);
      }
    }

    /** What freeing a connection does to timers: those of its two socket events are deleted
        before `reset` clears the flags of all three, and one kept open starts its idle timer.
        Index and flags go on agreeing exactly if the sleep was over, as `yield_timer` leaves it. */
    method FreeConnection(read: CoEvent, write: CoEvent, sleep: CoEvent, keep: bool, idleMs: nat, now: int)
      requires Valid() && read in events && write in events && sleep in events
      requires read != write && read != sleep && write != sleep
      modifies this`timers, this`nextId, read, write, sleep`flagTimerSet
      ensures Valid() <==> !old(sleep.flagTimerSet)
      ensures !write.flagTimerSet && !sleep.flagTimerSet && read.flagTimerSet == keep
      ensures var rest := Without(Without(old(timers), write), read);
        timers == if keep then Insert(rest, Node(now + idleMs, read, old(nextId))) else rest
    {
      hide Ordered, Without, Insert, Has;
      if write.flagTimerSet {
        DelTimer(write);
      } else {
        WithoutUnset(write);
      }
      if read.flagTimerSet {
        DelTimer(read);
      } else {
        WithoutUnset(read);
      }
      assert sleep.flagTimerSet == old(sleep.flagTimerSet);
      InsertFits(read, Node(now + idleMs, read, nextId));
      read.Reset();
      write.Reset();
      sleep.Reset();
      if keep {
        StartTimer(read, idleMs, now);
      }
    }

    lemma WithoutUnset(e: CoEvent)
      requires Valid() && e in events && !e.flagTimerSet
      ensures Without(timers, e) == timers
    {
      WithoutAbsent(timers, e);
    }
  }
}
