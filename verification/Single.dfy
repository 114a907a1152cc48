/** The wait queues of blocked mutexes. A coroutine whose trylock failed joins the queue of
    the mutex and the set of waiting connections, sleeps, and leaves the set when it runs
    again; an unlock takes entries from the queue until it finds one to wake. */
module Single {
  import opened Common

  /** A thread and a connection id: who waits. */
  datatype Key = Key(thread: nat, conn: nat)

  datatype Entry = Entry(key: Key, version: nat)

  type Queues = map<nat, seq<Entry>>

  /** Position of the first entry whose connection is waiting, or the length. */
  function FirstWaiting(q: seq<Entry>, waiting: set<Key>): (i: nat)
    ensures i <= |q| && (i < |q| ==> q[i].key in waiting)
    ensures forall j :: 0 <= j < i ==> q[j].key !in waiting
  {
    if q == [] || q[0].key in waiting then 0 else 1 + FirstWaiting(q[1..], waiting)
  }

  /** What is left of a queue after an unlock, and who is woken. */
  function Left(q: seq<Entry>, waiting: set<Key>): seq<Entry> {
    var i := FirstWaiting(q, waiting);
    if i < |q| then q[i + 1..] else []
  }

  function Woken(q: seq<Entry>, waiting: set<Key>): Option<Entry> {
    var i := FirstWaiting(q, waiting);
    if i < |q| then Some(q[i]) else None
  }

  function Queue(queues: Queues, mutex: nat): seq<Entry> {
    if mutex in queues then queues[mutex] else []
  }

  /** An emptied queue is erased from the map. */
  function Stored(queues: Queues, mutex: nat, q: seq<Entry>): Queues {
    if q == [] then queues - {mutex} else queues[mutex := q]
  }

  predicate NoneEmpty(queues: Queues) {
    forall m :: m in queues ==> queues[m] != []
  }

  class CoSingle {
    var waiting: set<Key>      // m_threadConnectionIds
    var queues: Queues         // m_blockMutexs

    ghost predicate Valid()
      reads this
    {
      NoneEmpty(queues)
    }

    constructor ()
      ensures Valid() && waiting == {} && queues == map[]
    {
      waiting, queues := {}, map[];
    }

    method FindBlockMutex(key: Key) returns (found: bool)
      ensures found == (key in waiting)
    {
      found := key in waiting;
    }

    /** The section of add_block_mutex before the coroutine sleeps. */
    method Enter(mutex: nat, e: Entry)
      requires Valid()
      modifies this
      ensures Valid() && waiting == old(waiting) + {e.key}
      ensures queues == if e.key in old(waiting) then old(queues)
                        else old(queues)[mutex := Queue(old(queues), mutex) + [e]]
    {
      if e.key !in waiting {
        queues := queues[mutex := Queue(queues, mutex) + [e]];
        waiting := waiting + {e.key};
      }
    }

    /** The section after it: woken, timed out or dying, the coroutine stops waiting. Its
        entry, if no unlock took it, stays behind in the queue. */
    method Leave(key: Key)
      requires Valid()
      modifies this`waiting
      ensures Valid() && waiting == old(waiting) - {key}
    {
      if key in waiting {
        waiting := waiting - {key};
      }
    }

    /** free_block_mutex: wakes the earliest entry whose connection is still waiting, drops
        exactly the entries up to it, and never stores an empty queue. */
    method FreeBlockMutex(mutex: nat) returns (woken: Option<Entry>)
      requires Valid()
      modifies this`queues
      ensures Valid()
      ensures woken == Woken(Queue(old(queues), mutex), waiting)
      ensures queues == Stored(old(queues), mutex, Left(Queue(old(queues), mutex), waiting))
    {
      woken := None;
      if mutex !in queues {
        assert queues == queues - {mutex};
        return;
      }
      var q := queues[mutex];
      while true
        invariant q != [] && queues == old(queues) && woken == None
        invariant Woken(q, waiting) == Woken(old(queues)[mutex], waiting)
        invariant Left(q, waiting) == Left(old(queues)[mutex], waiting)
        decreases |q|
      {
        var e := q[0];
        q := q[1..];
        if e.key in waiting {
          woken := Some(e);
        }
        if q == [] {
          queues := queues - {mutex};
          break;
        }
        if woken != None {
          queues := queues[mutex := q];
          break;
        }
      }
    }
  }

  // ---------- runs ----------

  /** The shared tables, what has passed through each queue, and the resume queue of the
      dispatcher with the connections it has resumed from there. */
  datatype State = State(
    waiting: set<Key>,
    queues: Queues,
    entered: Queues,                 // everything ever added, per mutex
    removed: Queues,                 // everything unlocks took out, per mutex
    goal: map<Key, nat>,             // the mutex a waiting connection waits for
    singles: seq<Entry>,             // m_waitSingles
    resumed: seq<(Entry, set<Key>)>) // what was run, with the waiting set at that moment

  const INITIAL := State({}, map[], map[], map[], map[], [], [])

  datatype Action =
    | Enter(mutex: nat, entry: Entry)
    | Leave(key: Key)
    | Unlock(mutex: nat)
    | Dispatch(current: bool)        // `current`: the version still matches

  function Do(s: State, a: Action): State {
    match a
    case Enter(m, e) =>
      if e.key in s.waiting then s
      else s.(waiting := s.waiting + {e.key}, goal := s.goal[e.key := m],
              queues := s.queues[m := Queue(s.queues, m) + [e]],
              entered := s.entered[m := Queue(s.entered, m) + [e]])
    case Leave(key) => s.(waiting := s.waiting - {key})
    case Unlock(m) =>
      var q := Queue(s.queues, m);
      var left, woken := Left(q, s.waiting), Woken(q, s.waiting);
      s.(queues := Stored(s.queues, m, left),
         removed := s.removed[m := Queue(s.removed, m) + q[..|q| - |left|]],
         singles := if woken.Some? then s.singles + [woken.value] else s.singles)
    case Dispatch(current) =>
      if s.singles == [] then s
      else if s.singles[0].key in s.waiting && current then
        s.(singles := s.singles[1..], resumed := s.resumed + [(s.singles[0], s.waiting)])
      else s.(singles := s.singles[1..])
  }

  function After(acts: seq<Action>): State {
    if acts == [] then INITIAL else Do(After(acts[..|acts| - 1]), acts[|acts| - 1])
  }

  /** The queue of `m` is what entered it less what unlocks took from its front. */
  ghost predicate Fifo(s: State, m: nat) {
    Queue(s.entered, m) == Queue(s.removed, m) + Queue(s.queues, m)
  }

  ghost predicate Inv(s: State) {
    && NoneEmpty(s.queues)
    && (forall m: nat :: Fifo(s, m))
    && (forall i :: 0 <= i < |s.resumed| ==> s.resumed[i].0.key in s.resumed[i].1)
  }

  lemma LeftIsSuffix(q: seq<Entry>, waiting: set<Key>)
    ensures |Left(q, waiting)| <= |q|
    ensures q == q[..|q| - |Left(q, waiting)|] + Left(q, waiting)
  {
  }

  lemma UnlockKeepsFifo(s: State, m: nat)
    requires Fifo(s, m)
    ensures Fifo(Do(s, Unlock(m)), m)
  {
    hide Left, Woken;
    var q, t := Queue(s.queues, m), Do(s, Unlock(m));
    var left := Left(q, s.waiting);
    LeftIsSuffix(q, s.waiting);
    var gone := q[..|q| - |left|];
    assert Queue(t.queues, m) == left && Queue(t.removed, m) == Queue(s.removed, m) + gone;
    assert Queue(t.entered, m) == Queue(s.entered, m);
    hide Do, Queue;
    assert Queue(s.removed, m) + gone + left == Queue(s.removed, m) + (gone + left);
  }

  lemma DoKeepsFifo(s: State, a: Action, m: nat)
    requires Fifo(s, m)
    ensures Fifo(Do(s, a), m)
  {
    hide Left, Woken;
    if a == Unlock(m) {
      UnlockKeepsFifo(s, m);
    } else if a.Enter? && a.mutex == m && a.entry.key !in s.waiting {
      var before, q := Queue(s.removed, m), Queue(s.queues, m);
      assert before + (q + [a.entry]) == before + q + [a.entry];
    }
  }

  lemma DoKeepsInv(s: State, a: Action)
    requires Inv(s)
    ensures Inv(Do(s, a))
  {
    hide Left, Woken, Fifo;
    forall m: nat ensures Fifo(Do(s, a), m) {
      DoKeepsFifo(s, a, m);
    }
  }

  lemma {:induction false} RunKeepsInv(acts: seq<Action>)
    ensures Inv(After(acts))
  {
    if acts != [] {
      RunKeepsInv(acts[..|acts| - 1]);
      DoKeepsInv(After(acts[..|acts| - 1]), acts[|acts| - 1]);
    }
  }

  /** On every run no stored queue is empty, every queue is what entered it less what unlocks
      took from its front, in order, and what the dispatcher resumed from its queue of woken
      connections was waiting at that very moment. */
  lemma QueuesAreFifo(acts: seq<Action>, m: nat)
    ensures var s := After(acts);
      && (m in s.queues ==> s.queues[m] != [])
      && Queue(s.entered, m) == Queue(s.removed, m) + Queue(s.queues, m)
      && (forall i :: 0 <= i < |s.resumed| ==> s.resumed[i].0.key in s.resumed[i].1)
  {
    RunKeepsInv(acts);
    assert Fifo(After(acts), m);
  }

  /** An unlock wakes somebody if and only if some entry's connection waits; nobody who waits
      is dropped unwoken, and only the first who waits is woken. */
  lemma UnlockWakes(q: seq<Entry>, waiting: set<Key>)
    ensures Woken(q, waiting) != None <==> exists i :: 0 <= i < |q| && q[i].key in waiting
    ensures var dropped := q[..|q| - |Left(q, waiting)|];
      forall i :: 0 <= i < |dropped| && dropped[i].key in waiting ==>
        Woken(q, waiting) == Some(dropped[i]) && i == |dropped| - 1
  {
  }

  // ---------- whom an unlock wakes ----------

  /** The connection an unlock of `m` wakes, if any, waits for another mutex. */
  predicate WakesOther(s: State, m: nat) {
    var woken := Woken(Queue(s.queues, m), s.waiting);
    woken.Some? && Goal(s, woken.value.key) != Some(m)
  }

  function Goal(s: State, key: Key): Option<nat> {
    if key in s.goal then Some(s.goal[key]) else None
  }

  /** An unlock wakes a connection that waits for another mutex if and only if, of the entries
      whose connections wait, the first does. */
  lemma WakesOtherWhen(s: State, m: nat)
    ensures WakesOther(s, m) <==>
      var q := Queue(s.queues, m);
      exists i :: 0 <= i < |q| && q[i].key in s.waiting && Goal(s, q[i].key) != Some(m)
        && forall j :: 0 <= j < i ==> q[j].key !in s.waiting
    ensures var t := Do(s, Unlock(m));
      WakesOther(s, m) <==>
        t.singles != s.singles && Goal(s, t.singles[|t.singles| - 1].key) != Some(m)
  {
    var q, i := Queue(s.queues, m), FirstWaiting(Queue(s.queues, m), s.waiting);
    if i < |q| {
      assert Woken(q, s.waiting) == Some(q[i]);
    }
  }

  /** No queue holds an entry of this connection. */
  predicate Unlisted(s: State, key: Key) {
    forall m, i :: m in s.queues && 0 <= i < |s.queues[m]| ==> s.queues[m][i].key != key
  }

  /** A connection stops waiting only after unlocks have taken its entry. */
  predicate Tidy(s: State, a: Action) {
    a.Leave? && a.key in s.waiting ==> Unlisted(s, a.key)
  }

  ghost predicate TidyRun(acts: seq<Action>) {
    acts == [] ||
    (TidyRun(acts[..|acts| - 1]) && Tidy(After(acts[..|acts| - 1]), acts[|acts| - 1]))
  }

  /** Every entry is of a connection that waits for the mutex of its queue. */
  ghost predicate OwnEntries(s: State) {
    forall m, i :: m in s.queues && 0 <= i < |s.queues[m]| ==>
      s.queues[m][i].key in s.waiting && Goal(s, s.queues[m][i].key) == Some(m)
  }

  lemma UnlockIs(s: State, m: nat)
    ensures var t, q := Do(s, Unlock(m)), Queue(s.queues, m);
      && t.waiting == s.waiting && t.goal == s.goal
      && (m in t.queues ==> m in s.queues && t.queues[m] == Left(q, s.waiting) && q == s.queues[m])
      && forall other :: other in t.queues && other != m ==> other in s.queues && t.queues[other] == s.queues[other]
  {
    LeftIsSuffix(Queue(s.queues, m), s.waiting);
    hide Woken, Left;
  }

  lemma LeftEntry(q: seq<Entry>, waiting: set<Key>, i: nat) returns (j: nat)
    requires i < |Left(q, waiting)|
    ensures j < |q| && Left(q, waiting)[i] == q[j]
  {
    LeftIsSuffix(q, waiting);
    var left := Left(q, waiting);
    hide Left;
    j := |q| - |left| + i;
    assert (q[..|q| - |left|] + left)[j] == left[i];
  }

  lemma UnlockKeepsOwn(s: State, m: nat)
    requires OwnEntries(s)
    ensures OwnEntries(Do(s, Unlock(m)))
  {
    var t, q := Do(s, Unlock(m)), Queue(s.queues, m);
    UnlockIs(s, m);
    hide Do, Queue, Left, Woken, Goal;
    forall other, i | other in t.queues && 0 <= i < |t.queues[other]|
      ensures t.queues[other][i].key in t.waiting && Goal(t, t.queues[other][i].key) == Some(other)
    {
      if other == m {
        var j := LeftEntry(q, s.waiting, i);
        SameGoal(s, t, q[j].key);
        assert s.queues[m][j] == t.queues[m][i];
      } else {
        SameGoal(s, t, s.queues[other][i].key);
      }
    }
  }

  lemma SameGoal(s: State, t: State, key: Key)
    requires s.goal == t.goal
    ensures Goal(s, key) == Goal(t, key)
  {
  }

  lemma DoKeepsOwn(s: State, a: Action)
    requires OwnEntries(s) && Tidy(s, a)
    ensures OwnEntries(Do(s, a))
  {
    hide Woken, Left;
    match a {
      case Enter(m, e) =>
      case Leave(key) =>
      case Unlock(m) => UnlockKeepsOwn(s, m);
      case Dispatch(current) =>
    }
  }

  lemma {:induction false} TidyKeepsOwn(acts: seq<Action>)
    requires TidyRun(acts)
    ensures OwnEntries(After(acts))
  {
    if acts != [] {
      TidyKeepsOwn(acts[..|acts| - 1]);
      DoKeepsOwn(After(acts[..|acts| - 1]), acts[|acts| - 1]);
    }
  }

  /** On every run in which connections stop waiting only after their entries were taken, no
      unlock wakes a connection that waits for another mutex. */
  lemma TidyWakesOwn(acts: seq<Action>, m: nat)
    requires TidyRun(acts)
    ensures !WakesOther(After(acts), m)
  {
    TidyKeepsOwn(acts);
  }

  function Unlocks(s: State, m: nat, n: nat): State
    decreases n
  {
    if n == 0 then s else Unlocks(Do(s, Unlock(m)), m, n - 1)
  }

  /** A waiting connection with an entry in the queue of a mutex it does not wait for is woken
      by some unlock of that mutex, or another one like it is. */
  lemma {:induction false} StaleEntryIsReached(s: State, m: nat, at: nat) returns (n: nat)
    requires at < |Queue(s.queues, m)| && Queue(s.queues, m)[at].key in s.waiting
    requires Goal(s, Queue(s.queues, m)[at].key) != Some(m)
    ensures WakesOther(Unlocks(s, m, n), m)
    decreases |Queue(s.queues, m)|
  {
    var q := Queue(s.queues, m);
    var i := FirstWaiting(q, s.waiting);
    assert i <= at;
    if Goal(s, q[i].key) != Some(m) {
      return 0;
    }
    var t := Do(s, Unlock(m));
    assert Queue(t.queues, m) == q[i + 1..];
    assert Queue(t.queues, m)[at - i - 1] == q[at];
    n := StaleEntryIsReached(t, m, at - i - 1);
    n := n + 1;
  }

  /** And the condition is needed: once a connection stops waiting with an entry still in the
      queue of `m`, its next wait, for any other mutex, is cut short by unlocks of `m`, or
      somebody else's is. */
  lemma UntidyWakesOther(s: State, m: nat, at: nat, other: nat, version: nat) returns (n: nat)
    requires at < |Queue(s.queues, m)| && other != m
    ensures var key := Queue(s.queues, m)[at].key;
      WakesOther(Unlocks(Do(Do(s, Leave(key)), Enter(other, Entry(key, version))), m, n), m)
  {
    var key := Queue(s.queues, m)[at].key;
    var t := Do(Do(s, Leave(key)), Enter(other, Entry(key, version)));
    assert Queue(t.queues, m) == Queue(s.queues, m);
    n := StaleEntryIsReached(t, m, at);
  }

  /** An entry left behind by a timeout still counts: when its connection waits again, on
      another mutex, unlocking the first one wakes it. */
  lemma StaleEntryWakes(m1: nat, m2: nat, e: Entry)
    requires m1 != m2
    ensures var s := Do(Do(Do(Do(INITIAL, Enter(m1, e)), Leave(e.key)), Enter(m2, e)), Unlock(m1));
      s.singles == [e] && Queue(s.queues, m2) == [e]
  {
    var s := Do(Do(Do(INITIAL, Enter(m1, e)), Leave(e.key)), Enter(m2, e));
    assert Queue(s.queues, m1) == [e] && Queue(s.queues, m2) == [e] && s.waiting == {e.key};
    assert FirstWaiting([e], {e.key}) == 0;
  }

  // ---------- who waits is woken and resumed ----------

  /** An entry the dispatcher pops is resumed if and only if its connection waits and has the
      version it had; either way the next one is next. */
  lemma PoppedIsResumed(s: State, current: bool)
    requires s.singles != []
    ensures var t, e := Do(s, Dispatch(current)), s.singles[0];
      && (e.key in s.waiting && current ==> t == s.(singles := s.singles[1..], resumed := s.resumed + [(e, s.waiting)]))
      && (e.key !in s.waiting || !current ==> t == s.(singles := s.singles[1..]))
  {
  }

  /** `n` unlocks took the first `n` entries of a queue. */
  ghost predicate TookInOrder(s: State, t: State, m: nat, n: nat) {
    && n <= |Queue(s.queues, m)|
    && t.singles == s.singles + Queue(s.queues, m)[..n] && Queue(t.queues, m) == Queue(s.queues, m)[n..]
    && t.waiting == s.waiting && t.resumed == s.resumed
  }

  /** Unlocks take the entries of waiting connections in order, one each. */
  lemma {:induction false} UnlocksWakeInOrder(s: State, m: nat, n: nat)
    requires n <= |Queue(s.queues, m)| && forall i :: 0 <= i < n ==> Queue(s.queues, m)[i].key in s.waiting
    ensures TookInOrder(s, Unlocks(s, m, n), m, n)
    decreases n
  {
    if n == 0 {
      assert Queue(s.queues, m)[..0] == [];
    } else {
      var t := Do(s, Unlock(m));
      NextUnlock(s, m, n);
      hide *;
      UnlocksWakeInOrder(t, m, n - 1);
      TookOneMore(s, t, Unlocks(t, m, n - 1), m, n);
    }
  }

  lemma NextUnlock(s: State, m: nat, n: nat)
    requires 0 < n <= |Queue(s.queues, m)| && forall i :: 0 <= i < n ==> Queue(s.queues, m)[i].key in s.waiting
    ensures var t := Do(s, Unlock(m));
      && TookInOrder(s, t, m, 1) && Unlocks(s, m, n) == Unlocks(t, m, n - 1) && n - 1 <= |Queue(t.queues, m)|
      && forall i :: 0 <= i < n - 1 ==> Queue(t.queues, m)[i].key in t.waiting
  {
    UnlockTakesFront(s, m);
    hide Do, Queue;
  }

  lemma TookOneMore(s: State, t: State, u: State, m: nat, n: nat)
    requires 0 < n && TookInOrder(s, t, m, 1) && TookInOrder(t, u, m, n - 1)
    ensures TookInOrder(s, u, m, n)
  {
    var q, r := Queue(s.queues, m), Queue(t.queues, m);
    hide Queue;
    assert q[..n] == q[..1] + r[..n - 1];
    assert s.singles + q[..n] == s.singles + q[..1] + r[..n - 1];
    assert r[n - 1..] == q[n..];
  }

  lemma UnlockTakesFront(s: State, m: nat)
    requires Queue(s.queues, m) != [] && Queue(s.queues, m)[0].key in s.waiting
    ensures TookInOrder(s, Do(s, Unlock(m)), m, 1)
  {
    var q := Queue(s.queues, m);
    assert FirstWaiting(q, s.waiting) == 0;
    assert Left(q, s.waiting) == q[1..] && Woken(q, s.waiting) == Some(q[0]);
    hide Left, Woken, FirstWaiting;
    assert q[..1] == [q[0]];
  }

  /** The dispatcher pops `n` entries, whose connections have the versions they had. */
  function Dispatches(s: State, n: nat): State {
    if n == 0 then s else Do(Dispatches(s, n - 1), Dispatch(true))
  }

  lemma {:induction false} DispatchesPop(s: State, n: nat)
    requires n <= |s.singles|
    ensures Dispatches(s, n).singles == s.singles[n..] && Dispatches(s, n).waiting == s.waiting
  {
    if n > 0 {
      var t := Dispatches(s, n - 1);
      DispatchesPop(s, n - 1);
      PoppedIsResumed(t, true);
      hide Do;
      assert s.singles[n - 1..][1..] == s.singles[n..];
    }
  }

  /** From any state in which all entries are of connections that wait for that mutex, one that
      starts to wait joins the queue's end, and as many unlocks as the queue is long wake all
      those before it, in order, and then it. */
  lemma EnteredIsWoken(s: State, m: nat, e: Entry)
    requires OwnEntries(s) && e.key !in s.waiting
    ensures var before := Queue(s.queues, m);
      var t := Unlocks(Do(s, Enter(m, e)), m, |before| + 1);
      t.singles == s.singles + before + [e] && Queue(t.queues, m) == [] && t.waiting == s.waiting + {e.key}
  {
    var before, r := Queue(s.queues, m), Do(s, Enter(m, e));
    EnterJoins(s, m, e);
    hide *;
    UnlocksWakeInOrder(r, m, |before| + 1);
    AllTaken(r, Unlocks(r, m, |before| + 1), m, before, e);
  }

  /** No waiter is forgotten: then, with the versions as they were, the dispatcher resumes it when
      it comes to its entry. */
  lemma EnteredIsResumed(s: State, m: nat, e: Entry)
    requires OwnEntries(s) && e.key !in s.waiting
    ensures var t := Unlocks(Do(s, Enter(m, e)), m, |Queue(s.queues, m)| + 1);
      var u := Dispatches(t, |s.singles| + |Queue(s.queues, m)| + 1);
      u.singles == [] && u.resumed != [] && u.resumed[|u.resumed| - 1] == (e, s.waiting + {e.key})
  {
    hide *;
    EnteredIsWoken(s, m, e);
    LastIsResumed(Unlocks(Do(s, Enter(m, e)), m, |Queue(s.queues, m)| + 1), e);
  }

  lemma EnterJoins(s: State, m: nat, e: Entry)
    requires OwnEntries(s) && e.key !in s.waiting
    ensures var q, r := Queue(s.queues, m) + [e], Do(s, Enter(m, e));
      && Queue(r.queues, m) == q && r.waiting == s.waiting + {e.key} && r.singles == s.singles
      && forall i :: 0 <= i < |q| ==> q[i].key in r.waiting
  {
  }

  lemma AllTaken(s: State, t: State, m: nat, before: seq<Entry>, e: Entry)
    requires TookInOrder(s, t, m, |before| + 1) && Queue(s.queues, m) == before + [e]
    ensures t.singles == s.singles + before + [e] && Queue(t.queues, m) == [] && t.waiting == s.waiting
  {
    var q := before + [e];
    hide Queue;
    assert q[..|before| + 1] == q && q[|before| + 1..] == [];
    assert s.singles + q == s.singles + before + [e];
  }

  lemma LastIsResumed(s: State, e: Entry)
    requires s.singles != [] && s.singles[|s.singles| - 1] == e && e.key in s.waiting
    ensures var u := Dispatches(s, |s.singles|);
      u.singles == [] && u.resumed != [] && u.resumed[|u.resumed| - 1] == (e, s.waiting)
  {
    var n := |s.singles| - 1;
    DispatchesPop(s, n);
    assert Dispatches(s, n).singles == [e];
    PoppedIsResumed(Dispatches(s, n), true);
  }
}
