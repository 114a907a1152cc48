/** One upstream's backends: availability with a failure window, and the two ways of
    choosing a backend. The classes update their fields in place; the functions before
    them are the values those updates are proved to produce. */
module Backend {

  const UPSTREAM_ERR_MAX_NUM := 10
  const UPSTREAM_ERR_MAX_TIME := 5000

  const TWO_31 := 0x8000_0000
  const TWO_32 := 0x1_0000_0000

  /** The C++ cast `(int32_t)` of a difference of millisecond timestamps. */
  function Int32(x: int): (r: int)
    ensures -TWO_31 <= r < TWO_31 && (x - r) % TWO_32 == 0
  {
    var low := x % TWO_32;
    if low < TWO_31 then low else low - TWO_32
  }

  /** C++ integer division, which truncates towards zero. */
  function TruncDiv(a: int, b: int): int
    requires b != 0
  {
    if a >= 0 then a / b else -((-a) / b)
  }

  /** The fields of one backend. Times are milliseconds. */
  datatype State = State(
    weight: int, current: int, effective: int,
    failTime: int, failNum: int, failCheck: bool,
    fail: bool, errNum: int, errFirst: int, down: int)

  /** The state after one availability query. */
  function Queried(b: State, now: int): State {
    if b.failCheck && b.fail && Int32(now - b.down) >= b.failTime
    then b.(fail := false, errNum := 0)
    else b
  }

  predicate Up(b: State, now: int) {
    !b.failCheck || !Queried(b, now).fail
  }

  /** The state after one recorded failure: the weight drops, the window counts. */
  function Failed(b: State, now: int): State
  {
    if !b.failCheck then b else Counted(Lowered(b), now)
  }

  function Lowered(b: State): State {
    if b.failNum == 0 then b else
    var eff := b.effective - TruncDiv(b.weight, b.failNum);
    b.(effective := if eff < 0 then 0 else eff)
  }

  function Counted(b: State, now: int): State {
    var c := if Int32(now - b.errFirst) > b.failTime then b.(errFirst := now, errNum := 1)
             else b.(errNum := b.errNum + 1);
    if c.errNum >= c.failNum then c.(fail := true, down := now) else c
  }

  // ---------- weighted choice ----------

  /** What the scan of the weighted choice does to one backend. */
  function Advanced(b: State, now: int): State {
    if !Up(b, now) then Queried(b, now) else
    var q := Queried(b, now);
    q.(current := q.current + q.effective,
       effective := if q.effective < q.weight then q.effective + 1 else q.effective)
  }

  function Scan(s: seq<State>, times: seq<int>): (r: seq<State>)
    requires |s| == |times|
    ensures |r| == |s|
  {
    seq(|s|, i requires 0 <= i < |s| => Advanced(s[i], times[i]))
  }

  /** Total effective weight of the backends that are up. */
  function UpTotal(s: seq<State>, times: seq<int>): int
    requires |s| == |times|
  {
    if s == [] then 0 else
    var n := |s| - 1;
    UpTotal(s[..n], times[..n]) + if Up(s[n], times[n]) then s[n].effective else 0
  }

  /** The backend the scan settles on, or -1 when none is up. */
  function Best(s: seq<State>, times: seq<int>): (b: int)
    requires |s| == |times|
    ensures -1 <= b < |s|
  {
    if s == [] then -1 else
    var n := |s| - 1;
    var b := Best(s[..n], times[..n]);
    if Up(s[n], times[n]) &&
       (b == -1 || Advanced(s[n], times[n]).current > Advanced(s[b], times[b]).current)
    then n else b
  }

  /** The scan settles on the earliest of the backends that are up whose weight, after the
      gain, is largest; it finds none exactly when none is up. */
  lemma {:induction false} BestIsFirstMax(s: seq<State>, times: seq<int>)
    requires |s| == |times|
    ensures Best(s, times) == -1 <==> forall i :: 0 <= i < |s| ==> !Up(s[i], times[i])
    ensures Best(s, times) >= 0 ==> IsFirstMax(s, times, Best(s, times))
  {
    hide Up, Advanced;
    if s != [] {
      var n := |s| - 1;
      assert forall i :: 0 <= i < n ==> s[..n][i] == s[i] && times[..n][i] == times[i];
      BestIsFirstMax(s[..n], times[..n]);
    }
  }

  ghost predicate IsFirstMax(s: seq<State>, times: seq<int>, b: int)
    requires |s| == |times|
  {
    && 0 <= b < |s|
    && Up(s[b], times[b])
    && (forall i :: 0 <= i < |s| && Up(s[i], times[i]) ==>
          Advanced(s[i], times[i]).current <= Advanced(s[b], times[b]).current)
    && (forall i :: 0 <= i < b && Up(s[i], times[i]) ==>
          Advanced(s[i], times[i]).current < Advanced(s[b], times[b]).current)
  }

  function PickWeighted(s: seq<State>, times: seq<int>): (r: seq<State>)
    requires |s| == |times|
    ensures |r| == |s|
  {
    var scanned, b := Scan(s, times), Best(s, times);
    if b == -1 then scanned
    else scanned[b := scanned[b].(current := scanned[b].current - UpTotal(s, times))]
  }

  // ---------- round robin ----------

  function Next(index: nat, n: nat): nat {
    if index + 1 == n then 0 else index + 1
  }

  /** At most `steps` advances of the index, stopping at a backend that is up: the new
      states, the new index, and the backend chosen or -1. */
  function RoundRobin(s: seq<State>, index: nat, times: seq<int>, steps: nat): (r: (seq<State>, nat, int))
    requires index < |s| == |times|
    ensures |r.0| == |s| && r.1 < |s| && (r.2 == -1 || r.2 == r.1)
    decreases steps
  {
    if steps == 0 then (s, index, -1) else
    var j := Next(index, |s|);
    var s' := s[j := Queried(s[j], times[j])];
    if Up(s[j], times[j]) then (s', j, j) else RoundRobin(s', j, times, steps - 1)
  }

  /** Slot `j` is passed when the index advances `steps` times from `index`. */
  predicate Passed(index: nat, steps: nat, n: nat, j: nat) {
    index < j <= index + steps || j + n <= index + steps
  }

  /** Slot `j` is passed before the index, advancing from `index`, stops at `chosen`. */
  predicate Before(index: nat, chosen: nat, j: nat) {
    if index < chosen then index < j < chosen else j > index || j < chosen
  }

  /** Round robin chooses the first slot after `index` that is up, among the next `steps`;
      it queries that slot and the ones before it and no others. */
  lemma {:induction false} RoundRobinFirstUp(s: seq<State>, index: nat, times: seq<int>, steps: nat)
    requires index < |s| == |times| && steps <= |s|
    ensures var (s', _, c) := RoundRobin(s, index, times, steps);
      if c == -1 then
        forall j :: 0 <= j < |s| ==>
          if Passed(index, steps, |s|, j) then !Up(s[j], times[j]) && s'[j] == Queried(s[j], times[j])
          else s'[j] == s[j]
      else
        && Passed(index, steps, |s|, c) && Up(s[c], times[c])
        && forall j :: 0 <= j < |s| ==>
             && (Before(index, c, j) ==> !Up(s[j], times[j]))
             && s'[j] == if j == c || Before(index, c, j) then Queried(s[j], times[j]) else s[j]
    decreases steps
  {
    hide Up, Queried;
    if steps > 0 {
      var j := Next(index, |s|);
      var s' := s[j := Queried(s[j], times[j])];
      if !Up(s[j], times[j]) {
        RoundRobinFirstUp(s', j, times, steps - 1);
      }
    }
  }

  // ---------- the classes ----------

  datatype ConfUpstream = ConfUpstream(failTimeout: int, failMaxnum: int)

  /** What `add_backend` builds: the configured weight reaches only `effective`. */
  function NewState(conf: ConfUpstream, serverWeight: int): State {
    State(
      0, 0, if serverWeight <= 0 then 1 else serverWeight,
      if conf.failTimeout < 0 then UPSTREAM_ERR_MAX_TIME else conf.failTimeout,
      if conf.failMaxnum < 0 then UPSTREAM_ERR_MAX_NUM else conf.failMaxnum,
      conf.failTimeout != 0 && conf.failMaxnum != 0,
      false, 0, 0, 0)
  }

  class CoBackendWRR {
    var weight: int
    var currentWeight: int
    var effectiveWeight: int
    var confFailTime: int
    var confFailNum: int
    var failCheck: bool
    var fail: bool
    var errNum: int
    var errFirstTimestamp: int
    var downTimestamp: int

    ghost function View(): State
      reads this
    {
      State(weight, currentWeight, effectiveWeight, confFailTime, confFailNum,
            failCheck, fail, errNum, errFirstTimestamp, downTimestamp)
    }

    constructor (conf: ConfUpstream, serverWeight: int)
      ensures View() == NewState(conf, serverWeight)
    {
      weight, currentWeight := 0, 0;
      fail, errNum, errFirstTimestamp, downTimestamp := false, 0, 0, 0;
      failCheck := !(conf.failTimeout == 0 || conf.failMaxnum == 0);
      confFailTime := if conf.failTimeout < 0 then UPSTREAM_ERR_MAX_TIME else conf.failTimeout;
      confFailNum := if conf.failMaxnum < 0 then UPSTREAM_ERR_MAX_NUM else conf.failMaxnum;
      effectiveWeight := if serverWeight <= 0 then 1 else serverWeight;
    }

    method Avaliable(now: int) returns (up: bool)
      modifies this`fail, this`errNum
      ensures View() == Queried(old(View()), now)
      ensures up == Up(old(View()), now)
    {
      if !failCheck || !fail {
        return true;
      }
      if Int32(now - downTimestamp) >= confFailTime {
        fail := false;
        errNum := 0;
      }
      up := !fail;
    }

    /** One turn of the weighted scan. */
    method GainWeight(now: int) returns (up: bool)
      modifies this
      ensures View() == Advanced(old(View()), now)
      ensures up == Up(old(View()), now)
    {
      up := Avaliable(now);
      if up {
        currentWeight := currentWeight + effectiveWeight;
        if effectiveWeight < weight {
          effectiveWeight := effectiveWeight + 1;
        }
      }
    }

    method PayTotal(total: int)
      modifies this`currentWeight
      ensures View() == old(View()).(current := old(View()).current - total)
    {
      currentWeight := currentWeight - total;
    }

    method CommFailed(now: int)
      modifies this
      ensures View() == Failed(old(View()), now)
    {
      if !failCheck {
        return;
      }
      if confFailNum != 0 {
        effectiveWeight := effectiveWeight - TruncDiv(weight, confFailNum);
        if effectiveWeight < 0 {
          effectiveWeight := 0;
        }
      }
      CountFailure(now);
    }

    method CountFailure(now: int)
      modifies this`errFirstTimestamp, this`errNum, this`fail, this`downTimestamp
      ensures View() == Counted(old(View()), now)
    {
      if Int32(now - errFirstTimestamp) > confFailTime {
        errFirstTimestamp := now;
        errNum := 0;
      }
      errNum := errNum + 1;
      if errNum >= confFailNum {
        fail := true;
        downTimestamp := now;
      }
    }
  }

  lemma ScanNone(s: seq<State>, times: seq<int>)
    requires |s| == |times|
    ensures Best(s[..0], times[..0]) == -1 && UpTotal(s[..0], times[..0]) == 0
  {
  }

  /** One back end more in the scan. */
  lemma ScanOneMore(s: seq<State>, times: seq<int>, k: nat)
    requires |s| == |times| && k < |s|
    ensures var b, up := Best(s[..k], times[..k]), Up(s[k], times[k]);
      && UpTotal(s[..k + 1], times[..k + 1]) == UpTotal(s[..k], times[..k]) + (if up then s[k].effective else 0)
      && Best(s[..k + 1], times[..k + 1]) ==
        if up && (b == -1 || Advanced(s[k], times[k]).current > Advanced(s[b], times[b]).current) then k else b
  {
    hide Advanced, Up;
    assert s[..k + 1][..k] == s[..k] && times[..k + 1][..k] == times[..k];
  }

  ghost function Views(bs: seq<CoBackendWRR>): (r: seq<State>)
    reads bs
    ensures |r| == |bs|
    ensures forall i :: 0 <= i < |bs| ==> r[i] == bs[i].View()
  {
    if bs == [] then [] else Views(bs[..|bs| - 1]) + [bs[|bs| - 1].View()]
  }

  lemma SameViews(bs: seq<CoBackendWRR>, s: seq<State>)
    requires |s| == |bs| && forall i :: 0 <= i < |bs| ==> bs[i].View() == s[i]
    ensures Views(bs) == s
  {
  }

  class CoBackendStrategyWRR {
    var totalWeight: int
    var weighted: bool
    var curBackendsIndex: nat
    var backends: seq<CoBackendWRR>

    ghost predicate Valid()
      reads this
    {
      && (forall i, j :: 0 <= i < j < |backends| ==> backends[i] != backends[j])
      && (backends != [] ==> curBackendsIndex < |backends|)
      && (backends == [] ==> curBackendsIndex == 0)
    }

    constructor ()
      ensures Valid() && backends == []
    {
      totalWeight, weighted, curBackendsIndex, backends := 0, false, 0, [];
    }

    method AddBackend(conf: ConfUpstream, serverWeight: int)
      requires Valid()
      modifies this`backends
      ensures Valid() && |backends| == |old(backends)| + 1
      ensures fresh(backends[|old(backends)|])
      ensures backends[..|old(backends)|] == old(backends)
      ensures Views(backends) == old(Views(backends)) + [NewState(conf, serverWeight)]
    {
      var backend := new CoBackendWRR(conf, serverWeight);
      assert forall i :: 0 <= i < |backends| ==> backends[i] != backend;
      backends := backends + [backend];
    }

    /** Every weight still has its default 0, so two or more backends always take the
        weighted path, equal configured weights or not. */
    method Init()
      requires Valid()
      modifies this`totalWeight, this`weighted
      ensures (forall b :: b in backends ==> b.weight == 0) ==>
                totalWeight == 0 && (weighted <==> |backends| >= 2)
    {
      var total := 0;
      for i := 0 to |backends|
        invariant (forall b :: b in backends ==> b.weight == 0) ==> total == 0
        invariant backends == old(backends)
      {
        total := total + backends[i].weight;
      }
      totalWeight := total;
      weighted := total != |backends|;
      if |backends| == 1 {
        weighted := false;
      }
    }

    /** The scanning loop. `times[i]` is the clock reading when backend `i` is queried. */
    method GainAll(times: seq<int>) returns (best: int, total: int)
      requires Valid() && |times| == |backends|
      modifies backends
      ensures best == Best(old(Views(backends)), times)
      ensures total == UpTotal(old(Views(backends)), times)
      ensures Views(backends) == Scan(old(Views(backends)), times)
    {
      hide Advanced, Up, Queried, Best, UpTotal;
      ghost var s := Views(backends);
      best, total := -1, 0;
      ScanNone(s, times);
      for k := 0 to |backends|
        invariant total == UpTotal(s[..k], times[..k])
        invariant best == Best(s[..k], times[..k])
        invariant forall i :: 0 <= i < k ==> backends[i].View() == Advanced(s[i], times[i])
        invariant forall i :: k <= i < |backends| ==> backends[i].View() == s[i]
      {
        ScanOneMore(s, times, k);
        best, total := ScanOne(k, best, total, times[k]);
      }
      assert s[..|backends|] == s && times[..|backends|] == times;
      SameViews(backends, Scan(s, times));
    }

    /** One turn of it: backend `k` gains, if it is up, and may be the best so far. */
    method ScanOne(k: nat, best: int, total: int, now: int) returns (b: int, sum: int)
      requires Valid() && k < |backends| && -1 <= best < k
      modifies backends[k]
      ensures backends[k].View() == Advanced(old(backends[k].View()), now)
      ensures var was := old(backends[k].View());
        && sum == total + (if Up(was, now) then was.effective else 0)
        && b == if Up(was, now) && (best == -1 || backends[k].View().current > backends[best].View().current)
                then k else best
    {
      hide Advanced, Up;
      var backend := backends[k];
      var gain := backend.effectiveWeight;
      b, sum := best, total;
      var up := backend.GainWeight(now);
      if !up {
        return;
      }
      sum := sum + gain;
      if b == -1 || backend.currentWeight > backends[b].currentWeight {
        b := k;
      }
    }

    method ChooseOneWeight(times: seq<int>) returns (best: int)
      requires Valid() && |times| == |backends|
      modifies backends
      ensures Views(backends) == PickWeighted(old(Views(backends)), times)
      ensures best == Best(old(Views(backends)), times)
    {
      hide Best, UpTotal, Scan;
      var total;
      best, total := GainAll(times);
      if best != -1 {
        backends[best].PayTotal(total);
      }
      SameViews(backends, PickWeighted(old(Views(backends)), times));
    }

    method QueryNext(times: seq<int>) returns (up: bool)
      requires Valid() && |times| == |backends| > 0
      modifies backends, this`curBackendsIndex
      ensures Valid() && curBackendsIndex == Next(old(curBackendsIndex), |backends|)
      ensures up == Up(old(Views(backends))[curBackendsIndex], times[curBackendsIndex])
      ensures Views(backends) == old(Views(backends))[curBackendsIndex :=
                Queried(old(Views(backends))[curBackendsIndex], times[curBackendsIndex])]
    {
      hide Up, Queried;
      NextSlot(curBackendsIndex, |backends|);
      curBackendsIndex := (curBackendsIndex + 1) % |backends|;
      up := backends[curBackendsIndex].Avaliable(times[curBackendsIndex]);
    }

    method ChooseOne(times: seq<int>) returns (chosen: int)
      requires Valid() && |times| == |backends| > 0
      modifies backends, this`curBackendsIndex
      ensures Valid()
      ensures (Views(backends), curBackendsIndex, chosen) ==
                RoundRobin(old(Views(backends)), old(curBackendsIndex), times, |backends|)
    {
      hide Up, Queried, Next, Views;
      ghost var result := RoundRobin(Views(backends), curBackendsIndex, times, |backends|);
      for i := 0 to |backends|
        invariant Valid()
        invariant RoundRobin(Views(backends), curBackendsIndex, times, |backends| - i) == result
      {
        var up := QueryNext(times);
        if up {
          return curBackendsIndex;
        }
      }
      chosen := -1;
    }

    /** NULL (-1) exactly when every backend is down. */
    method GetBackend(times: seq<int>) returns (chosen: int)
      requires Valid() && |times| == |backends|
      modifies backends, this`curBackendsIndex
      ensures Valid() && -1 <= chosen < |backends|
      ensures chosen == -1 <==>
                forall i :: 0 <= i < |backends| ==> !Up(old(Views(backends))[i], times[i])
      ensures weighted ==> chosen == Best(old(Views(backends)), times)
      ensures weighted ==> Views(backends) == PickWeighted(old(Views(backends)), times)
      ensures !weighted && backends != [] ==>
                (Views(backends), curBackendsIndex, chosen) ==
                  RoundRobin(old(Views(backends)), old(curBackendsIndex), times, |backends|)
    {
      hide Up, Queried, Advanced, PickWeighted, Best, RoundRobin, Views, IsFirstMax;
      if backends == [] {
        return -1;
      }
      if weighted {
        BestIsFirstMax(Views(backends), times);
        chosen := ChooseOneWeight(times);
      } else {
        RoundRobinFirstUp(Views(backends), curBackendsIndex, times, |backends|);
        chosen := ChooseOne(times);
      }
    }
  }

  lemma NextSlot(index: nat, n: nat)
    requires index < n
    ensures (index + 1) % n == Next(index, n)
  {
    if index + 1 == n {
      assert n % n == 0;
    }
  }
}
