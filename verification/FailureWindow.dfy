/** When a backend is marked down and when it comes back, over any run of failures and
    queries of one backend. The code compares 32-bit casts of time differences; the first
    part says exactly when that comparison means what it should. */
module FailureWindow {
  import opened Backend

  /** A time difference the cast does not distort around the threshold `t`. */
  predicate CastFaithful(d: int, t: int) {
    d < t || t <= d % TWO_32 < TWO_31
  }

  /** `(int32_t)d >= t` means `d >= t` exactly for the differences `CastFaithful` describes:
      those under the threshold and those whose low 32 bits read as at least the threshold.
      A difference of 24.9 days fails it. */
  lemma CastAgrees(d: int, t: int)
    requires d >= 0 && 0 <= t < TWO_31
    ensures (Int32(d) >= t <==> d >= t) <==> CastFaithful(d, t)
  {
    if d < TWO_32 {
      assert d % TWO_32 == d;
    }
  }

  // ---------- being available again ----------

  /** A backend that is down answers available exactly when fail_timeout has passed since
      it was marked; that query is the one that restores it. */
  lemma DownUntilTimeout(b: State, now: int)
    requires b.failCheck && b.fail && 0 < b.failTime < TWO_31
    requires now >= b.down && CastFaithful(now - b.down, b.failTime)
    ensures Up(b, now) <==> now - b.down >= b.failTime
    ensures Up(b, now) ==> Queried(b, now) == b.(fail := false, errNum := 0)
    ensures !Up(b, now) ==> Queried(b, now) == b
  {
    CastAgrees(now - b.down, b.failTime);
  }

  /** A new backend with a timeout of 5 seconds and a threshold of two failures. */
  const EXAMPLE := State(0, 0, 1, 5000, 2, true, false, 0, 0, 0)

  /** Without the hypothesis the promise fails: 24.9 days after it was marked, at whatever
      time that was, a backend whose timeout is 5 seconds is still answered as down. */
  lemma StillDownAfterWeeks(marked: int)
    ensures var b := EXAMPLE.(fail := true, errNum := 2, down := marked);
      marked + TWO_31 - b.down >= b.failTime && !Up(b, marked + TWO_31)
  {
    assert Int32(TWO_31) == -TWO_31;
  }

  // ---------- being marked down ----------

  datatype Event = Failure(now: int) | Query(now: int)

  function Apply(b: State, ev: Event): State {
    match ev
    case Failure(now) => Failed(b, now)
    case Query(now) => Queried(b, now)
  }

  function After(b: State, evs: seq<Event>): State {
    if evs == [] then b else Apply(After(b, evs[..|evs| - 1]), evs[|evs| - 1])
  }

  /** The times of the failures of a run, in order. */
  function Failures(evs: seq<Event>): seq<int> {
    if evs == [] then [] else
    Failures(evs[..|evs| - 1]) +
      if evs[|evs| - 1].Failure? then [evs[|evs| - 1].now] else []
  }

  /** The clock does not go back, and no failure is compared through a distorting cast. */
  predicate ClockOk(b: State, evs: seq<Event>) {
    evs == [] ||
    var front, now := evs[..|evs| - 1], evs[|evs| - 1].now;
    && ClockOk(b, front)
    && (front == [] || front[|front| - 1].now <= now)
    && (evs[|evs| - 1].Failure? ==>
          var d := now - After(b, front).errFirst;
          d >= 0 && CastFaithful(d, b.failTime + 1))
  }

  ghost predicate NewBackend(b: State) {
    b.failCheck && 0 < b.failTime < TWO_31 - 1 && b.failNum > 0 && !b.fail && b.errNum == 0
  }

  /** The last `n` elements of `s` all lie in `[lo, lo + span]`. */
  ghost predicate LastWithin(s: seq<int>, n: int, lo: int, span: int) {
    0 <= n <= |s| && forall i :: |s| - n <= i < |s| ==> lo <= s[i] <= lo + span
  }

  /** What every run keeps: the failures counted are the last ones, all within one span of
      fail_timeout that starts at `errFirst`; a backend marked down was marked with at least
      fail_maxnum of them. `down` is a time at which that threshold was reached. */
  ghost predicate Window(b0: State, b: State, times: seq<int>) {
    && b.failCheck == b0.failCheck && b.failTime == b0.failTime && b.failNum == b0.failNum
    && LastWithin(times, b.errNum, b.errFirst, b.failTime)
    && (b.fail ==> exists k: nat ::
          k <= |times| && k > 0 && times[k - 1] == b.down && Crowded(times[..k], b.failNum, b.failTime))
  }

  /** The last `n` of these failures fall within one span. */
  ghost predicate Crowded(times: seq<int>, n: int, span: int) {
    exists lo: int :: LastWithin(times, n, lo, span)
  }

  /** A failure keeps the window if and only if the cast does not distort its distance from
      the window's first failure. */
  lemma FailureKeepsWindow(b0: State, b: State, times: seq<int>, now: int)
    requires NewBackend(b0) && Window(b0, b, times) && now >= b.errFirst
    ensures Window(b0, Failed(b, now), times + [now]) <==> CastFaithful(now - b.errFirst, b.failTime + 1)
  {
    CastAgrees(now - b.errFirst, b.failTime + 1);
    var c, log := Failed(b, now), times + [now];
    if CastFaithful(now - b.errFirst, b.failTime + 1) {
      FaithfulKeepsWindow(b0, b, times, now);
    } else {
      assert c.errFirst == b.errFirst && c.errNum == b.errNum + 1 && now > b.errFirst + b.failTime;
      assert log[|log| - 1] == now;
    }
  }

  lemma FaithfulKeepsWindow(b0: State, b: State, times: seq<int>, now: int)
    requires NewBackend(b0) && Window(b0, b, times)
    requires now >= b.errFirst && CastFaithful(now - b.errFirst, b.failTime + 1)
    ensures Window(b0, Failed(b, now), times + [now])
  {
    CastAgrees(now - b.errFirst, b.failTime + 1);
    var c, log := Failed(b, now), times + [now];
    assert LastWithin(log, c.errNum, c.errFirst, c.failTime);
    if c.errNum >= c.failNum {
      assert log[..|log|] == log;
      assert LastWithin(log, c.failNum, c.errFirst, c.failTime);
      assert Crowded(log[..|log|], c.failNum, c.failTime);
    } else if b.fail {
      var k: nat :| k <= |times| && k > 0 && times[k - 1] == b.down &&
        Crowded(times[..k], b.failNum, b.failTime);
      assert log[..k] == times[..k];
    }
  }

  /** Times do not go back, nor before the start of the first window. */
  predicate ClockForward(b: State, evs: seq<Event>) {
    && (forall i :: 0 <= i < |evs| ==> b.errFirst <= evs[i].now)
    && (forall i, j :: 0 <= i < j < |evs| ==> evs[i].now <= evs[j].now)
  }

  /** The window is right after every event of the run. */
  ghost predicate AlwaysWindow(b: State, evs: seq<Event>) {
    Window(b, After(b, evs), Failures(evs)) && (evs != [] ==> AlwaysWindow(b, evs[..|evs| - 1]))
  }

  lemma QueryKeepsWindow(b0: State, b: State, times: seq<int>, now: int)
    requires Window(b0, b, times)
    ensures Window(b0, Queried(b, now), times)
  {
  }

  lemma {:induction false} WindowStartsInRun(b: State, evs: seq<Event>, now: int)
    requires ClockForward(b, evs) && b.errFirst <= now
    requires forall i :: 0 <= i < |evs| ==> evs[i].now <= now
    ensures After(b, evs).errFirst <= now
  {
    if evs != [] {
      WindowStartsInRun(b, evs[..|evs| - 1], now);
    }
  }

  /** One event more after a front that was right throughout. */
  lemma NextWindowIff(b: State, front: seq<Event>, ev: Event)
    requires NewBackend(b) && Window(b, After(b, front), Failures(front))
    requires After(b, front).errFirst <= ev.now
    ensures Window(b, Apply(After(b, front), ev), Failures(front) + if ev.Failure? then [ev.now] else []) <==>
      (ev.Failure? ==> CastFaithful(ev.now - After(b, front).errFirst, b.failTime + 1))
  {
    var s, times := After(b, front), Failures(front);
    assert s.failTime == b.failTime;
    hide After, Failures, Window, CastFaithful, Failed, Queried;
    if ev.Failure? {
      FailureKeepsWindow(b, s, times, ev.now);
    } else {
      assert times + [] == times;
      QueryKeepsWindow(b, s, times, ev.now);
    }
  }

  /** With a clock that does not go back, the window is right throughout a run if and only if
      no failure of the run is compared through a distorting cast. */
  lemma {:induction false} AlwaysWindowIff(b: State, evs: seq<Event>)
    requires NewBackend(b) && ClockForward(b, evs)
    ensures AlwaysWindow(b, evs) <==> ClockOk(b, evs)
  {
    hide Window, Apply, CastFaithful;
    if evs == [] {
      StartsRight(b);
    } else {
      var front, ev := evs[..|evs| - 1], evs[|evs| - 1];
      AlwaysWindowIff(b, front);
      WindowStartsInRun(b, front, ev.now);
      if AlwaysWindow(b, front) {
        NextWindowIff(b, front, ev);
      }
    }
  }

  lemma StartsRight(b: State)
    requires NewBackend(b)
    ensures Window(b, After(b, []), Failures([]))
  {
  }

  lemma {:induction false} FailuresSorted(b: State, evs: seq<Event>, now: int)
    requires ClockForward(b, evs) && forall i :: 0 <= i < |evs| ==> evs[i].now <= now
    ensures forall i, j :: 0 <= i < j < |Failures(evs)| ==> Failures(evs)[i] <= Failures(evs)[j]
    ensures forall i :: 0 <= i < |Failures(evs)| ==> Failures(evs)[i] <= now
  {
    if evs != [] {
      FailuresSorted(b, evs[..|evs| - 1], evs[|evs| - 1].now);
    }
  }

  lemma CrowdedWhen(log: seq<int>, n: nat, span: nat)
    requires 0 < n <= |log| && Sorted(log)
    ensures Crowded(log, n, span) <==> log[|log| - 1] - log[|log| - n] <= span
  {
    var first := log[|log| - n];
    if log[|log| - 1] - first <= span {
      assert LastWithin(log, n, first, span);
    } else {
      forall lo: int ensures !LastWithin(log, n, lo, span) {
        assert lo <= first ==> log[|log| - 1] > lo + span;
      }
    }
  }

  /** What every run with a clock that does not go back keeps, distorted failures or not: the
      failures counted came at or after the start of the window, and a backend that is not
      down has counted fewer than the threshold. */
  ghost predicate Counting(b0: State, b: State, times: seq<int>) {
    && b.failCheck == b0.failCheck && b.failTime == b0.failTime && b.failNum == b0.failNum
    && 0 <= b.errNum <= |times|
    && (forall i :: |times| - b.errNum <= i < |times| ==> b.errFirst <= times[i])
    && (!b.fail ==> b.errNum < b.failNum)
  }

  lemma FailureKeepsCounting(b0: State, b: State, times: seq<int>, now: int)
    requires NewBackend(b0) && Counting(b0, b, times) && b.errFirst <= now
    ensures Counting(b0, Failed(b, now), times + [now])
  {
    var c, log := Failed(b, now), times + [now];
    assert log[|log| - 1] == now;
    assert forall i :: 0 <= i < |times| ==> log[i] == times[i];
  }

  lemma {:induction false} RunKeepsCounting(b: State, evs: seq<Event>)
    requires NewBackend(b) && ClockForward(b, evs)
    ensures Counting(b, After(b, evs), Failures(evs))
  {
    hide Failed, Queried;
    if evs != [] {
      var front, ev := evs[..|evs| - 1], evs[|evs| - 1];
      RunKeepsCounting(b, front);
      if ev.Failure? {
        WindowStartsInRun(b, front, ev.now);
        FailureKeepsCounting(b, After(b, front), Failures(front), ev.now);
      } else {
        assert Failures(evs) == Failures(front);
        QueryKeepsCounting(b, After(b, front), Failures(front), ev.now);
      }
    }
  }

  lemma QueryKeepsCounting(b0: State, b: State, times: seq<int>, now: int)
    requires NewBackend(b0) && Counting(b0, b, times)
    ensures Counting(b0, Queried(b, now), times)
  {
  }

  /** The cast takes a failure beyond the window for one within it. */
  predicate Distorted(b: State, now: int) {
    !CastFaithful(now - b.errFirst, b.failTime + 1)
  }

  ghost predicate Sorted(log: seq<int>) {
    forall i, j :: 0 <= i < j < |log| ==> log[i] <= log[j]
  }

  /** The earliest failure a failure at `now` is counted with, itself if with none. */
  function Earliest(b: State, times: seq<int>, now: int): int
    requires 0 <= b.errNum <= |times|
  {
    if b.errNum == 0 then now else times[|times| - b.errNum]
  }

  /** Of a state: when a failure at `now` marks the backend down, the failures that reached the
      threshold are within one span if and only if the cast does not distort or the earliest of
      those counted is that recent all the same; which it is not if it started the window. */
  lemma MarkedNow(b0: State, b: State, times: seq<int>, now: int)
    requires NewBackend(b0) && Counting(b0, b, times) && Sorted(times + [now]) && b.errFirst <= now
    requires !b.fail && Failed(b, now).fail
    ensures b0.failNum <= |times| + 1
    ensures Crowded(times + [now], b0.failNum, b0.failTime) <==>
      !Distorted(b, now) || now - Earliest(b, times, now) <= b.failTime
    ensures b.errNum > 0 && Earliest(b, times, now) == b.errFirst ==>
      (Crowded(times + [now], b0.failNum, b0.failTime) <==> !Distorted(b, now))
  {
    var log, n := times + [now], b0.failNum;
    CastAgrees(now - b.errFirst, b.failTime + 1);
    assert forall i :: 0 <= i < |times| ==> log[i] == times[i];
    assert Failed(b, now).errNum >= n;
    assert log[|log| - 1] == now;
    CrowdedWhen(log, n, b0.failTime);
    hide Crowded, Sorted;
    if b.errNum == 0 || (!Distorted(b, now) && now - b.errFirst > b.failTime) {
      assert n == 1;
    } else {
      assert n == b.errNum + 1 && log[|log| - n] == times[|times| - b.errNum];
    }
  }

  /** A failure marks a backend down, on any run, only if the last fail_maxnum failures, this
      one included, lie within one span of fail_timeout, or this very failure is distorted. */
  lemma MarkedDownOnlyWhenCrowded(b: State, evs: seq<Event>, now: int)
    requires NewBackend(b) && ClockForward(b, evs + [Failure(now)])
    requires !After(b, evs).fail && Failed(After(b, evs), now).fail
    ensures Failures(evs + [Failure(now)]) == Failures(evs) + [now]
    ensures Failed(After(b, evs), now).down == now
    ensures Crowded(Failures(evs) + [now], b.failNum, b.failTime) || Distorted(After(b, evs), now)
  {
    var all := evs + [Failure(now)];
    assert all[..|all| - 1] == evs;
    RunAndClock(b, evs, now);
    MarkedNow(b, After(b, evs), Failures(evs), now);
  }

  lemma RunAndClock(b: State, evs: seq<Event>, now: int)
    requires NewBackend(b) && ClockForward(b, evs + [Failure(now)])
    ensures Counting(b, After(b, evs), Failures(evs)) && After(b, evs).errFirst <= now
    ensures Sorted(Failures(evs) + [now])
  {
    var all := evs + [Failure(now)];
    assert forall i :: 0 <= i < |evs| ==> all[i] == evs[i];
    assert all[|evs|] == Failure(now);
    WindowStartsInRun(b, evs, now);
    FailuresSorted(b, evs, now);
    RunKeepsCounting(b, evs);
  }

  /** Exactly, on any run: a marking is right if and only if it is not distorted, when its
      window started with the earliest failure it counts. A window that started before, the
      first one of a backend or one it has recovered in, may count failures that are recent
      all the same, and then a distorted marking is right too. */
  lemma MarkedDownIff(b: State, evs: seq<Event>, now: int)
    requires NewBackend(b) && ClockForward(b, evs + [Failure(now)])
    requires !After(b, evs).fail && Failed(After(b, evs), now).fail
    ensures var s, times := After(b, evs), Failures(evs);
      && 0 <= s.errNum <= |times|
      && (s.errNum > 0 && Earliest(s, times, now) == s.errFirst ==>
            (Crowded(times + [now], b.failNum, b.failTime) <==> !Distorted(s, now)))
      && (Crowded(times + [now], b.failNum, b.failTime) <==>
            !Distorted(s, now) || now - Earliest(s, times, now) <= b.failTime)
  {
    RunAndClock(b, evs, now);
    MarkedNow(b, After(b, evs), Failures(evs), now);
  }

  /** A distorted failure does mark wrongly: with a threshold of two failures within 5 seconds,
      two failures 1000 seconds apart mark a new backend down, because it measures its first
      window from time 0. Any time will do whose low 32 bits read as negative for as long, as
      they do for one half of all time. */
  lemma MarkedDownAcrossWindows(t: int)
    requires t >= 0 && Int32(t) < -1_000_000
    ensures NewBackend(EXAMPLE) && EXAMPLE.failNum == 2 && EXAMPLE.failTime == 5000
    ensures After(EXAMPLE, [Failure(t), Failure(t + 1_000_000)]).fail
  {
    hide Failed, After;
    var u := t + 1_000_000;
    var once := EXAMPLE.(errNum := 1);
    AfterTwo(EXAMPLE, Failure(t), Failure(u));
    assert Int32(u) == Int32(t) + 1_000_000;
    assert Failed(EXAMPLE, t) == once by { FailedFarFromZero(EXAMPLE, t, Int32(t)); }
    assert Failed(once, u).fail by { FailedFarFromZero(once, u, Int32(u)); }
  }

  /** A time whose low 32 bits read as negative counts towards the window that starts at 0. */
  lemma FailedFarFromZero(b: State, now: int, low: int)
    requires b.failCheck && b.weight == 0 && b.effective >= 0 && b.failNum > 0 && b.errFirst == 0
    requires Int32(now) == low <= b.failTime
    ensures Failed(b, now) ==
      var c := b.(errNum := b.errNum + 1);
      if c.errNum >= c.failNum then c.(fail := true, down := now) else c
  {
    assert TruncDiv(0, b.failNum) == 0;
    assert Lowered(b) == b;
  }

  lemma AfterTwo(b: State, x: Event, y: Event)
    ensures After(b, [x, y]) == Apply(Apply(b, x), y)
  {
    hide Apply;
    assert [x, y][..1] == [x] && [x][..0] == [];
    assert After(b, [x]) == Apply(b, x);
  }

  /** Every event of the run comes less than fail_timeout after the backend was last marked. */
  predicate Soon(b: State, evs: seq<Event>) {
    evs == [] ||
    var front, now := evs[..|evs| - 1], evs[|evs| - 1].now;
    Soon(b, front) && 0 <= now - After(b, front).down < b.failTime
  }

  /** A backend that is down stays down, unavailable to every query, through any run whose
      events each come less than fail_timeout after the last failure that marked it. */
  lemma {:induction false} StaysDown(b: State, evs: seq<Event>, now: int)
    requires b.failCheck && b.fail && 0 < b.failTime < TWO_31
    requires Soon(b, evs)
    ensures After(b, evs).fail && After(b, evs).failCheck && After(b, evs).failTime == b.failTime
    ensures 0 <= now - After(b, evs).down < b.failTime ==> !Up(After(b, evs), now)
  {
    if evs != [] {
      StaysDown(b, evs[..|evs| - 1], evs[|evs| - 1].now);
    }
  }

  // ---------- counting, exactly ----------

  /** A failure more than fail_timeout after the window's first starts the next window. */
  lemma WindowRestarts(b: State, now: int)
    requires b.failCheck && 0 < b.failTime < TWO_31 - 1
    requires now - b.errFirst > b.failTime && CastFaithful(now - b.errFirst, b.failTime + 1)
    ensures Failed(b, now).errFirst == now && Failed(b, now).errNum == 1
  {
    CastAgrees(now - b.errFirst, b.failTime + 1);
  }

  /** These events all fall in the window that starts at `first`. */
  predicate InWindow(evs: seq<Event>, first: int, span: int) {
    forall i :: 0 <= i < |evs| ==>
      first <= evs[i].now <= first + span && (evs[i].Query? ==> evs[i].now < first + span)
  }

  /** Down exactly if the threshold has been reached, since a time in the window. */
  predicate InStep(b: State) {
    && b.failCheck && 0 < b.failTime < TWO_31
    && (b.fail <==> b.errNum >= b.failNum)
    && (b.fail ==> b.errFirst <= b.down <= b.errFirst + b.failTime)
  }

  /** What counting leaves: every failure has been counted, the window is the same, and the back
      end is down exactly if that reached the threshold, since the last failure. */
  ghost predicate Counts(b: State, c: State, times: seq<int>) {
    && c.failTime == b.failTime && c.failNum == b.failNum && c.errFirst == b.errFirst
    && c.errNum == b.errNum + |times| && InStep(c)
    && (c.fail ==> c.down == if times == [] then b.down else times[|times| - 1])
  }

  lemma {:induction false} FailuresInWindow(evs: seq<Event>, first: int, span: int)
    requires InWindow(evs, first, span)
    ensures forall i :: 0 <= i < |Failures(evs)| ==> first <= Failures(evs)[i] <= first + span
  {
    if evs != [] {
      FailuresInWindow(evs[..|evs| - 1], first, span);
    }
  }

  /** Within one window no failure is missed and none counted twice. */
  lemma {:induction false} WindowCounts(b: State, evs: seq<Event>)
    requires InStep(b) && InWindow(evs, b.errFirst, b.failTime)
    ensures Counts(b, After(b, evs), Failures(evs))
  {
    if evs != [] {
      var front, ev := evs[..|evs| - 1], evs[|evs| - 1];
      WindowCounts(b, front);
      FailuresInWindow(front, b.errFirst, b.failTime);
      CountOne(b, After(b, front), Failures(front), ev);
    }
  }

  lemma CountOne(b: State, c: State, times: seq<int>, ev: Event)
    requires InStep(b) && Counts(b, c, times)
    requires InWindow([ev], b.errFirst, b.failTime)
    requires forall i :: 0 <= i < |times| ==> b.errFirst <= times[i] <= b.errFirst + b.failTime
    ensures Counts(b, Apply(c, ev), times + if ev.Failure? then [ev.now] else [])
  {
    assert [ev][0] == ev;
    assert times + [] == times;
    if ev.Failure? {
      assert Int32(ev.now - b.errFirst) == ev.now - b.errFirst;
    } else if c.fail {
      assert Int32(ev.now - c.down) == ev.now - c.down;
    }
  }

  /** A back end whose window has run out, as far as the cast can tell, is down after a failure
      and the events of the window that this starts if and only if the failures, it included,
      are fail_maxnum or more; the last of them is the time it is down from. */
  lemma MarkedDownWhenCrowded(b: State, first: int, evs: seq<Event>)
    requires b.failCheck && 0 < b.failTime < TWO_31 - 1 && !b.fail && 0 < b.failNum
    requires first - b.errFirst > b.failTime && CastFaithful(first - b.errFirst, b.failTime + 1)
    requires InWindow(evs, first, b.failTime)
    ensures var c, times := After(b, [Failure(first)] + evs), [first] + Failures(evs);
      && c.failCheck && c.failTime == b.failTime
      && (c.fail <==> |times| >= b.failNum)
      && (c.fail ==> c.down == times[|times| - 1])
  {
    var c := Failed(b, first);
    assert Apply(b, Failure(first)) == c;
    hide After, Failed, Failures, Apply, CastFaithful, InWindow;
    WindowRestarts(b, first);
    FirstInStep(b, first);
    AfterFirst(b, Failure(first), evs);
    WindowCounts(c, evs);
  }

  lemma FirstInStep(b: State, first: int)
    requires b.failCheck && 0 < b.failTime < TWO_31 - 1 && !b.fail && 0 < b.failNum
    requires Failed(b, first).errFirst == first && Failed(b, first).errNum == 1
    ensures var c := Failed(b, first);
      InStep(c) && c.failTime == b.failTime && c.failNum == b.failNum && (c.fail ==> c.down == first)
  {
  }

  lemma {:induction false} AfterFirst(b: State, ev: Event, evs: seq<Event>)
    ensures After(b, [ev] + evs) == After(Apply(b, ev), evs)
  {
    hide Apply;
    var all := [ev] + evs;
    if evs == [] {
      assert all == [ev] && all[..0] == [];
    } else {
      assert all[..|all| - 1] == [ev] + evs[..|evs| - 1];
      AfterFirst(b, ev, evs[..|evs| - 1]);
    }
  }

  /** Failure `i` of the run left a count that reached the threshold. */
  predicate Marks(b: State, evs: seq<Event>, i: nat) {
    i < |evs| && evs[i].Failure? && After(b, evs[..i + 1]).errNum >= b.failNum
  }

  /** After any run, whatever the clock does, the back end is down from the last failure that
      reached the threshold, one that finds it down already included, or from before the run. */
  lemma {:induction false} DownSinceLastMark(b: State, evs: seq<Event>) returns (last: int)
    requires b.failCheck
    ensures -1 <= last < |evs| && forall i: nat :: last < i ==> !Marks(b, evs, i)
    ensures last >= 0 ==> Marks(b, evs, last) && After(b, evs[..last + 1]).fail
    ensures After(b, evs).down == if last >= 0 then evs[last].now else b.down
    ensures After(b, evs).failNum == b.failNum && After(b, evs).failCheck
  {
    last := -1;
    if evs != [] {
      var n := |evs| - 1;
      last := DownSinceLastMark(b, evs[..n]);
      hide After;
      forall i: nat | i < n ensures Marks(b, evs, i) <==> Marks(b, evs[..n], i) {
        assert evs[..n][..i + 1] == evs[..i + 1];
      }
      assert evs[..n + 1] == evs && (last >= 0 ==> evs[..n][..last + 1] == evs[..last + 1]);
      LastEvent(b, evs);
      if Marks(b, evs, n) {
        last := n;
      }
    }
  }

  lemma LastEvent(b: State, evs: seq<Event>)
    requires evs != [] && After(b, evs[..|evs| - 1]).failCheck
    requires After(b, evs[..|evs| - 1]).failNum == b.failNum
    ensures var n, s, t := |evs| - 1, After(b, evs[..|evs| - 1]), After(b, evs);
      && t.failNum == b.failNum && t.failCheck
      && if evs[n].Failure? && t.errNum >= b.failNum then t.fail && t.down == evs[n].now else t.down == s.down
  {
  }

  // ---------- back ends as they are added ----------

  /** A back end added with both settings on starts with no failures, under the settings given
      or, for negative ones, ten failures and five seconds. */
  lemma AddedIsNew(conf: ConfUpstream, serverWeight: int)
    requires conf.failTimeout != 0 && conf.failMaxnum != 0 && conf.failTimeout < TWO_31 - 1
    ensures var b := NewState(conf, serverWeight);
      && NewBackend(b)
      && b.failTime == (if conf.failTimeout > 0 then conf.failTimeout else 5000)
      && b.failNum == (if conf.failMaxnum > 0 then conf.failMaxnum else 10)
  {
  }

  /** With either setting off no failures take it out of service. */
  lemma {:induction false} UncheckedIsUp(conf: ConfUpstream, serverWeight: int, evs: seq<Event>, now: int)
    requires conf.failTimeout == 0 || conf.failMaxnum == 0
    ensures var b := After(NewState(conf, serverWeight), evs); Up(b, now) && !b.failCheck
  {
    if evs != [] {
      UncheckedIsUp(conf, serverWeight, evs[..|evs| - 1], now);
    }
  }
}
