/** The wake-up protocol between the dispatcher thread and the threads that resume
    connections, as a state machine. Each section under the spin lock, each read of a
    queue's emptiness and each write to or wake-up by the socket pair is one step, and the
    steps of all threads interleave freely. */
module WakeUp {

  /** A connection and the version it had when it was queued. */
  datatype Item = Item(conn: nat, version: nat)

  /** Where the dispatcher thread stands. */
  datatype Pc =
    | Sleeping               // before or inside epoll_wait
    | Events                 // handling what epoll_wait returned
    | DelayLoop              // testing the delay queue
    | ResumeLoop             // testing m_waitResumes without the lock
    | ResumePop              // found it not empty; about to lock and pop
    | ResumeRun(item: Item)  // popped; about to check the version and run it
    | SingleLoop
    | SinglePop
    | SingleRun(item: Item)
    | TimerTest              // about to decide whether to process timers
    | LoopTest               // while (needContinue)

  datatype State = State(
    pc: Pc,
    needContinue: bool,
    running: bool,                 // m_run
    delay: seq<Item>,              // m_delayConnections, this thread only
    resumes: seq<Item>,            // m_waitResumes
    singles: seq<Item>,            // m_waitSingles
    signal: bool,                  // bytes have come into the socket pair that are not yet reported
    bytes: nat,                    // bytes in the socket pair
    capacity: nat,                 // how many it holds; a write that finds it full is lost
    toRead: bool,                  // reported, and its handler not yet run
    committed: set<nat>,           // producers between their push and their write
    pushed: (seq<Item>, seq<Item>),  // everything ever pushed to the two queues
    taken: (seq<Item>, seq<Item>))   // everything ever popped from them

  const READ_SIZE: nat := 8

  function Initial(capacity: nat): State {
    State(Sleeping, false, true, [], [], [], false, 0, capacity, false, {}, ([], []), ([], []))
  }

  /** A step of some thread. `later` is what the code run in the step adds to the delay
      queue; `ran` says whether a popped item passed its checks and was run. */
  datatype Action =
    | PushResume(producer: nat, item: Item)
    | PushSingle(producer: nat, item: Item)
    | WriteByte(producer: nat)
    | Stop
    | CloseAll(later: seq<Item>)
    | Wake
    | ReadPair
    | HandleEvent(later: seq<Item>)
    | EventsDone
    | PopDelay(ran: bool, later: seq<Item>)
    | DelayEmpty
    | ResumesNotEmpty | ResumesEmpty | PopResume | RunResume(ran: bool, later: seq<Item>)
    | SinglesNotEmpty | SinglesEmpty | PopSingle | RunSingle(ran: bool, later: seq<Item>)
    | ProcessTimers(later: seq<Item>) | SkipTimers
    | LoopAgain | LoopEnd

  predicate Enabled(s: State, a: Action) {
    match a
    case PushResume(p, _) => p !in s.committed
    case PushSingle(p, _) => p !in s.committed
    case WriteByte(p) => p in s.committed
    case Stop => true
    case CloseAll(_) => s.pc == Sleeping && !s.running
    case Wake => s.pc == Sleeping
    case HandleEvent(_) => s.pc == Events
    case ReadPair => s.pc == Events && s.toRead
    case EventsDone => s.pc == Events && !s.toRead
    case PopDelay(ran, later) => s.pc == DelayLoop && s.delay != [] && (ran || later == [])
    case DelayEmpty => s.pc == DelayLoop && s.delay == []
    case ResumesNotEmpty => s.pc == ResumeLoop && s.resumes != []
    case ResumesEmpty => s.pc == ResumeLoop && s.resumes == []
    case PopResume => s.pc == ResumePop && s.resumes != []
    case RunResume(ran, later) => s.pc.ResumeRun? && (ran || later == [])
    case SinglesNotEmpty => s.pc == SingleLoop && s.singles != []
    case SinglesEmpty => s.pc == SingleLoop && s.singles == []
    case PopSingle => s.pc == SinglePop && s.singles != []
    case RunSingle(ran, later) => s.pc.SingleRun? && (ran || later == [])
    case ProcessTimers(_) => s.pc == TimerTest
    case SkipTimers => s.pc == TimerTest
    case LoopAgain => s.pc == LoopTest && s.needContinue
    case LoopEnd => s.pc == LoopTest && !s.needContinue
  }

  function Do(s: State, a: Action): State
    requires Enabled(s, a)
  {
    match a
    case PushResume(p, item) =>
      // only the push that finds the queue empty goes on to write
      s.(resumes := s.resumes + [item],
         committed := if s.resumes == [] then s.committed + {p} else s.committed,
         pushed := (s.pushed.0 + [item], s.pushed.1))
    case PushSingle(p, item) =>
      s.(singles := s.singles + [item],
         committed := if s.singles == [] then s.committed + {p} else s.committed,
         pushed := (s.pushed.0, s.pushed.1 + [item]))
    case WriteByte(p) =>
      var t := s.(committed := s.committed - {p});
      if s.bytes < s.capacity then t.(bytes := s.bytes + 1, signal := true) else t
    case Stop => s.(running := false)
    case CloseAll(later) => s.(delay := s.delay + later)
    case Wake => s.(pc := Events, signal := false, toRead := s.signal)
    case ReadPair =>
      s.(bytes := if s.bytes > READ_SIZE then s.bytes - READ_SIZE else 0, toRead := false)
    case HandleEvent(later) => s.(delay := s.delay + later)
    case EventsDone => s.(pc := DelayLoop, needContinue := false)
    case PopDelay(ran, later) =>
      s.(delay := s.delay[1..] + later, needContinue := s.needContinue || ran)
    case DelayEmpty => s.(pc := ResumeLoop)
    case ResumesNotEmpty => s.(pc := ResumePop)
    case ResumesEmpty => s.(pc := SingleLoop)
    case PopResume =>
      s.(pc := ResumeRun(s.resumes[0]), resumes := s.resumes[1..],
         taken := (s.taken.0 + [s.resumes[0]], s.taken.1))
    case RunResume(ran, later) =>
      s.(pc := ResumeLoop, delay := s.delay + later, needContinue := s.needContinue || ran)
    case SinglesNotEmpty => s.(pc := SinglePop)
    case SinglesEmpty => s.(pc := TimerTest)
    case PopSingle =>
      s.(pc := SingleRun(s.singles[0]), singles := s.singles[1..],
         taken := (s.taken.0, s.taken.1 + [s.singles[0]]))
    case RunSingle(ran, later) =>
      s.(pc := SingleLoop, delay := s.delay + later, needContinue := s.needContinue || ran)
    case ProcessTimers(later) => s.(pc := LoopTest, delay := s.delay + later, needContinue := true)
    case SkipTimers => s.(pc := LoopTest)
    case LoopAgain => s.(pc := DelayLoop, needContinue := false)
    case LoopEnd => s.(pc := Sleeping)
  }

  // ---------- runs ----------

  /** `acts` can be taken one after the other from the initial state. */
  predicate Run(capacity: nat, acts: seq<Action>)
    decreases |acts|, 0
  {
    acts == [] ||
    (Run(capacity, acts[..|acts| - 1]) && Enabled(After(capacity, acts[..|acts| - 1]), acts[|acts| - 1]))
  }

  function After(capacity: nat, acts: seq<Action>): State
    requires Run(capacity, acts)
    decreases |acts|, 1
  {
    if acts == [] then Initial(capacity) else Do(After(capacity, acts[..|acts| - 1]), acts[|acts| - 1])
  }

  // ---------- what every run keeps ----------

  /** The dispatcher has yet to test m_waitResumes before it can sleep again. */
  predicate WillTestResumes(s: State) {
    match s.pc
    case Sleeping => false
    case Events => true
    case DelayLoop => true
    case ResumeLoop => true
    case ResumePop => true
    case ResumeRun(_) => true
    case _ => s.needContinue
  }

  predicate WillTestSingles(s: State) {
    match s.pc
    case Sleeping => false
    case TimerTest => s.needContinue
    case LoopTest => s.needContinue
    case _ => true
  }

  /** A signal is there, or a producer is on its way to send one. */
  predicate Called(s: State) {
    s.signal || s.committed != {}
  }

  /** Past the delay loop, an item added to the delay queue forces another round. */
  predicate DelayKept(s: State) {
    match s.pc
    case Sleeping => s.delay != [] ==> !s.running
    case Events => true
    case DelayLoop => true
    case _ => s.delay != [] ==> s.needContinue
  }

  /** A full socket pair has been or is about to be reported, or is about to be read. */
  predicate FullIsReported(s: State) {
    && 0 < s.capacity && s.bytes <= s.capacity
    && (s.bytes == s.capacity ==> s.signal || s.toRead)
    && (s.toRead ==> s.pc == Events)
  }

  /** An item the dispatcher will not look for has a signal on its way; what it has found not
      empty is so still; and the queue is what was pushed less what was popped. */
  predicate ResumesKept(s: State) {
    && (s.resumes != [] && !WillTestResumes(s) ==> Called(s))
    && (s.pc == ResumePop ==> s.resumes != [])
    && s.pushed.0 == s.taken.0 + s.resumes
  }

  predicate SinglesKept(s: State) {
    && (s.singles != [] && !WillTestSingles(s) ==> Called(s))
    && (s.pc == SinglePop ==> s.singles != [])
    && s.pushed.1 == s.taken.1 + s.singles
  }

  predicate Inv(s: State) {
    FullIsReported(s) && ResumesKept(s) && SinglesKept(s) && DelayKept(s)
  }

  lemma DoReportsFull(s: State, a: Action)
    requires FullIsReported(s) && Enabled(s, a)
    ensures FullIsReported(Do(s, a))
  {
    if a.Wake? || a.ReadPair? {
      assert Do(s, a).capacity == s.capacity;
    }
  }

  lemma DoKeepsResumes(s: State, a: Action)
    requires FullIsReported(s) && ResumesKept(s) && Enabled(s, a)
    ensures ResumesKept(Do(s, a))
  {
    match a
    case PopResume =>
      assert s.taken.0 + [s.resumes[0]] + s.resumes[1..] == s.taken.0 + s.resumes;
    case PushResume(p, item) =>
      assert p in Do(s, a).committed || s.resumes != [];
    case PushSingle(p, item) =>
    case _ => assert Do(s, a).resumes == s.resumes;
  }

  lemma DoKeepsSingles(s: State, a: Action)
    requires FullIsReported(s) && SinglesKept(s) && Enabled(s, a)
    ensures SinglesKept(Do(s, a))
  {
    match a
    case PopSingle =>
      assert s.taken.1 + [s.singles[0]] + s.singles[1..] == s.taken.1 + s.singles;
    case PushSingle(p, item) =>
      assert p in Do(s, a).committed || s.singles != [];
    case PushResume(p, item) =>
    case _ => assert Do(s, a).singles == s.singles;
  }

  lemma DoKeepsDelay(s: State, a: Action)
    requires DelayKept(s) && Enabled(s, a)
    ensures DelayKept(Do(s, a))
  {
    if a.PushResume? || a.PushSingle? {
      assert Do(s, a).delay == s.delay;
    }
  }

  lemma DoKeepsInv(s: State, a: Action)
    requires Inv(s) && Enabled(s, a)
    ensures Inv(Do(s, a))
  {
    DoReportsFull(s, a);
    DoKeepsResumes(s, a);
    DoKeepsSingles(s, a);
    DoKeepsDelay(s, a);
    hide Do, Enabled;
  }

  lemma {:induction false} RunKeepsInv(capacity: nat, acts: seq<Action>)
    requires capacity > 0 && Run(capacity, acts)
    ensures Inv(After(capacity, acts))
  {
    if acts != [] {
      RunKeepsInv(capacity, acts[..|acts| - 1]);
      DoKeepsInv(After(capacity, acts[..|acts| - 1]), acts[|acts| - 1]);
    }
  }

  /** No wake-up is lost: in every interleaving, an item in either queue that the dispatcher
      will not look for before it sleeps has a signal waiting or about to be written. That holds
      however few bytes the socket pair has room for, and although a wake-up reads no more
      than eight and a write that finds no room is lost: a full pair is one still to be reported. */
  lemma {:induction false} NoLostWakeUp(capacity: nat, acts: seq<Action>)
    requires capacity > 0 && Run(capacity, acts)
    ensures var s := After(capacity, acts);
      && (s.resumes != [] && !WillTestResumes(s) ==> Called(s))
      && (s.singles != [] && !WillTestSingles(s) ==> Called(s))
  {
    RunKeepsInv(capacity, acts);
  }

  /** A dispatcher that sleeps with no signal and no producer on its way has popped every
      item ever pushed, in the order it was pushed; and unless it was told to stop, it has
      left nothing in the delay queue. */
  lemma SleepsOnlyWhenDone(capacity: nat, acts: seq<Action>)
    requires capacity > 0 && Run(capacity, acts)
    requires After(capacity, acts).pc == Sleeping && !Called(After(capacity, acts))
    ensures var s := After(capacity, acts);
      s.taken.0 == s.pushed.0 && s.taken.1 == s.pushed.1 && (s.running ==> s.delay == [])
  {
    RunKeepsInv(capacity, acts);
    var s := After(capacity, acts);
    assert s.pushed.0 == s.taken.0 + [] && s.pushed.1 == s.taken.1 + [];
  }

  /** Only the push that finds its queue empty goes on to write to the socket pair. */
  lemma WritesWhenEmpty(s: State, producer: nat, item: Item)
    requires producer !in s.committed
    ensures Enabled(Do(s, PushResume(producer, item)), WriteByte(producer)) <==> s.resumes == []
    ensures Enabled(Do(s, PushSingle(producer, item)), WriteByte(producer)) <==> s.singles == []
  {
  }

  /** The two tests of a queue without the lock are safe: only the dispatcher pops, so what
      it found not empty is still not empty when it takes the lock. */
  lemma PopFindsAnItem(capacity: nat, acts: seq<Action>)
    requires capacity > 0 && Run(capacity, acts)
    ensures After(capacity, acts).pc == ResumePop ==> Enabled(After(capacity, acts), PopResume)
    ensures After(capacity, acts).pc == SinglePop ==> Enabled(After(capacity, acts), PopSingle)
  {
    RunKeepsInv(capacity, acts);
  }

  /** What closing all connections has queued since the dispatcher last went to sleep. */
  function QueuedAsleep(acts: seq<Action>): seq<Item> {
    if acts == [] then [] else QueuedAfter(QueuedAsleep(acts[..|acts| - 1]), acts[|acts| - 1])
  }

  function QueuedAfter(queued: seq<Item>, a: Action): seq<Item> {
    match a
    case CloseAll(later) => queued + later
    case Wake => []
    case LoopEnd => []
    case _ => queued
  }

  lemma QueuedNext(acts: seq<Action>)
    requires acts != []
    ensures QueuedAsleep(acts) == QueuedAfter(QueuedAsleep(acts[..|acts| - 1]), acts[|acts| - 1])
  {
  }

  lemma FallsAsleepEmpty(s: State, a: Action, queued: seq<Item>)
    requires DelayKept(s) && Enabled(s, a) && (s.pc == Sleeping ==> s.delay == queued)
    ensures Do(s, a).pc == Sleeping ==> Do(s, a).delay == QueuedAfter(queued, a)
  {
    if s.pc == Sleeping {
      AsleepStep(s, a, queued);
    } else {
      assert Do(s, a).pc == Sleeping ==> a.LoopEnd?;
    }
  }

  lemma AsleepStep(s: State, a: Action, queued: seq<Item>)
    requires Enabled(s, a) && s.pc == Sleeping && s.delay == queued
    ensures Do(s, a).pc == Sleeping ==> Do(s, a).delay == QueuedAfter(queued, a)
  {
  }

  /** On every run, running or told to stop, the delay queue of a sleeping dispatcher holds
      exactly that, in order. */
  lemma {:induction false} AsleepDelayIsQueued(capacity: nat, acts: seq<Action>)
    requires capacity > 0 && Run(capacity, acts)
    ensures After(capacity, acts).pc == Sleeping ==> After(capacity, acts).delay == QueuedAsleep(acts)
  {
    if acts != [] {
      var front, a := acts[..|acts| - 1], acts[|acts| - 1];
      AsleepDelayIsQueued(capacity, front);
      RunKeepsInv(capacity, front);
      hide QueuedAsleep;
      assert QueuedAsleep(acts) == QueuedAfter(QueuedAsleep(front), a) by { QueuedNext(acts); }
      FallsAsleepEmpty(After(capacity, front), a, QueuedAsleep(front));
    }
  }

  /** The delay queue carries no signal: a dispatcher told to stop does go to sleep with
      connections in it, those that closing all connections has just queued. */
  lemma StoppingSleepsOnDelay(capacity: nat)
    ensures Run(capacity, [Stop, CloseAll([Item(1, 0)])])
    ensures var s := After(capacity, [Stop, CloseAll([Item(1, 0)])]);
      s.pc == Sleeping && s.delay == [Item(1, 0)] && !Called(s)
  {
    var acts := [Stop, CloseAll([Item(1, 0)])];
    assert acts[..1] == [Stop] && acts[..1][..0] == [];
    assert Run(capacity, [Stop]) && After(capacity, [Stop]) == Initial(capacity).(running := false);
  }

  // ---------- each queue is first in, first out ----------

  datatype Which = Delay | Resumes | Singles

  function QueueOf(s: State, which: Which): seq<Item> {
    match which
    case Delay => s.delay
    case Resumes => s.resumes
    case Singles => s.singles
  }

  /** What a step puts into a queue, and whether it takes an entry out. */
  function Puts(a: Action, which: Which): seq<Item> {
    match which
    case Resumes => if a.PushResume? then [a.item] else []
    case Singles => if a.PushSingle? then [a.item] else []
    case Delay =>
      match a
      case CloseAll(later) => later
      case HandleEvent(later) => later
      case PopDelay(_, later) => later
      case RunResume(_, later) => later
      case RunSingle(_, later) => later
      case ProcessTimers(later) => later
      case _ => []
  }

  predicate Takes(a: Action, which: Which) {
    (which.Delay? && a.PopDelay?) || (which.Resumes? && a.PopResume?) || (which.Singles? && a.PopSingle?)
  }

  function AllPut(acts: seq<Action>, which: Which): seq<Item> {
    if acts == [] then [] else AllPut(acts[..|acts| - 1], which) + Puts(acts[|acts| - 1], which)
  }

  function TakenOut(acts: seq<Action>, which: Which): nat {
    if acts == [] then 0
    else TakenOut(acts[..|acts| - 1], which) + if Takes(acts[|acts| - 1], which) then 1 else 0
  }

  predicate Moves(s: State, t: State, a: Action, which: Which) {
    var q, r, more := QueueOf(s, which), QueueOf(t, which), Puts(a, which);
    && (Takes(a, which) ==> q != [])
    && if Takes(a, which) then r == q[1..] + more else if more == [] then r == q else r == q + more
  }

  lemma DelayMoves(s: State, a: Action)
    requires Enabled(s, a)
    ensures Moves(s, Do(s, a), a, Delay)
  {
    match a
    case CloseAll(later) =>
    case HandleEvent(later) =>
    case PopDelay(ran, later) =>
    case RunResume(ran, later) =>
    case RunSingle(ran, later) =>
    case ProcessTimers(later) =>
    case _ => assert Do(s, a).delay == s.delay;
  }

  lemma ResumesMove(s: State, a: Action)
    requires Enabled(s, a)
    ensures Moves(s, Do(s, a), a, Resumes)
  {
    match a
    case PushResume(p, item) =>
    case PopResume => assert s.resumes[1..] + [] == s.resumes[1..];
    case _ => assert Do(s, a).resumes == s.resumes;
  }

  lemma SinglesMove(s: State, a: Action)
    requires Enabled(s, a)
    ensures Moves(s, Do(s, a), a, Singles)
  {
    match a
    case PushSingle(p, item) =>
    case PopSingle => assert s.singles[1..] + [] == s.singles[1..];
    case _ => assert Do(s, a).singles == s.singles;
  }

  lemma StepMoves(s: State, a: Action, which: Which)
    requires Enabled(s, a)
    ensures Moves(s, Do(s, a), a, which)
  {
    hide *;
    match which {
      case Delay => DelayMoves(s, a);
      case Resumes => ResumesMove(s, a);
      case Singles => SinglesMove(s, a);
    }
  }

  lemma Shifted(all: seq<Item>, n: nat, more: seq<Item>, q: seq<Item>, r: seq<Item>, takes: bool)
    requires n <= |all| && q == all[n..] && (takes ==> q != [])
    requires if takes then r == q[1..] + more else if more == [] then r == q else r == q + more
    ensures var m := n + if takes then 1 else 0;
      m <= |all + more| && r == (all + more)[m..]
  {
    if more == [] {
      assert all + more == all;
    }
  }

  /** On every run each of the three queues, the delay queue included, holds what was ever put
      into it, in that order, less as many from the front as were taken out: nothing is lost,
      doubled or overtaken. */
  lemma {:induction false} QueuesAreFifo(capacity: nat, acts: seq<Action>, which: Which)
    requires Run(capacity, acts)
    ensures TakenOut(acts, which) <= |AllPut(acts, which)|
    ensures QueueOf(After(capacity, acts), which) == AllPut(acts, which)[TakenOut(acts, which)..]
  {
    if acts != [] {
      var front, a := acts[..|acts| - 1], acts[|acts| - 1];
      QueuesAreFifo(capacity, front, which);
      StepMoves(After(capacity, front), a, which);
      var q, r := QueueOf(After(capacity, front), which), QueueOf(After(capacity, acts), which);
      assert r == QueueOf(Do(After(capacity, front), a), which);
      hide Do, Enabled, Puts, Takes, QueueOf;
      Shifted(AllPut(front, which), TakenOut(front, which), Puts(a, which), q, r, Takes(a, which));
    }
  }

  /** The entry about to be run, if one is. */
  function Running(s: State, which: Which): seq<Item> {
    match s.pc
    case ResumeRun(item) => if which.Resumes? then [item] else []
    case SingleRun(item) => if which.Singles? then [item] else []
    case _ => []
  }

  lemma StepRuns(s: State, a: Action, which: Which)
    requires Enabled(s, a) && (Takes(a, which) ==> QueueOf(s, which) != [])
    ensures var next := Running(Do(s, a), which);
      next != [] ==>
        next == if Takes(a, which) then [QueueOf(s, which)[0]] else Running(s, which)
  {
  }

  /** What the dispatcher is about to run is the entry it took out last. */
  lemma {:induction false} RunsWhatItTook(capacity: nat, acts: seq<Action>, which: Which)
    requires Run(capacity, acts)
    ensures var running, n := Running(After(capacity, acts), which), TakenOut(acts, which);
      running != [] ==> 0 < n <= |AllPut(acts, which)| && running == [AllPut(acts, which)[n - 1]]
  {
    if acts != [] {
      var front, a := acts[..|acts| - 1], acts[|acts| - 1];
      RunsWhatItTook(capacity, front, which);
      QueuesAreFifo(capacity, front, which);
      var s := After(capacity, front);
      StepMoves(s, a, which);
      assert Takes(a, which) ==> QueueOf(s, which) != [];
      StepRuns(s, a, which);
      hide Do, Enabled, Puts, Takes, QueueOf, Running, Moves;
    }
  }
}
