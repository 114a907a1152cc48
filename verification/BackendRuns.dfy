/** What the weighted choice keeps over whole runs of picks, queries and failures. */
module BackendRuns {
  import opened Backend
  import Wrr = SmoothWrr

  datatype Event =
    | Pick(times: seq<int>)            // choose_one_weight
    | Query(i: nat, now: int)          // avaliable() on one backend
    | CommFailed(i: nat, now: int)     // comm_failed() on one backend

  predicate Fits(n: nat, ev: Event) {
    match ev
    case Pick(times) => |times| == n
    case Query(i, _) => i < n
    case CommFailed(i, _) => i < n
  }

  predicate AllFit(n: nat, evs: seq<Event>) {
    forall k :: 0 <= k < |evs| ==> Fits(n, evs[k])
  }

  function Apply(s: seq<State>, ev: Event): (r: seq<State>)
    requires Fits(|s|, ev)
    ensures |r| == |s|
  {
    match ev
    case Pick(times) => PickWeighted(s, times)
    case Query(i, now) => s[i := Queried(s[i], now)]
    case CommFailed(i, now) => s[i := Failed(s[i], now)]
  }

  /** The states reached from `s` by the first `k` events. */
  function After(s: seq<State>, evs: seq<Event>, k: nat): (r: seq<State>)
    requires k <= |evs| && AllFit(|s|, evs)
    ensures |r| == |s|
  {
    if k == 0 then s else Apply(After(s, evs, k - 1), evs[k - 1])
  }

  function Currents(s: seq<State>): (r: seq<int>)
    ensures |r| == |s|
  {
    seq(|s|, i requires 0 <= i < |s| => s[i].current)
  }

  function Effectives(s: seq<State>): (r: seq<int>)
    ensures |r| == |s|
  {
    seq(|s|, i requires 0 <= i < |s| => s[i].effective)
  }

  // ---------- the sum of current weights ----------

  lemma {:induction false} ScanSum(s: seq<State>, times: seq<int>)
    requires |s| == |times|
    ensures Wrr.Sum(Currents(Scan(s, times))) == Wrr.Sum(Currents(s)) + UpTotal(s, times)
  {
    if s != [] {
      var n := |s| - 1;
      ScanSum(s[..n], times[..n]);
      assert Currents(s)[..n] == Currents(s[..n]);
      assert Currents(Scan(s, times))[..n] == Currents(Scan(s[..n], times[..n]));
    }
  }

  lemma PickKeepsSum(s: seq<State>, times: seq<int>)
    requires |s| == |times|
    ensures Wrr.Sum(Currents(PickWeighted(s, times))) == Wrr.Sum(Currents(s))
  {
    hide Up, Advanced, Best, UpTotal, Wrr.Sum;
    var scanned, b := Scan(s, times), Best(s, times);
    ScanSum(s, times);
    BestIsFirstMax(s, times);
    if b == -1 {
      NoneUpTotal(s, times);
    } else {
      var paid := scanned[b].current - UpTotal(s, times);
      assert Currents(PickWeighted(s, times)) == Currents(scanned)[b := paid];
      Wrr.SumUpdate(Currents(scanned), b, paid);
    }
  }

  lemma {:induction false} NoneUpTotal(s: seq<State>, times: seq<int>)
    requires |s| == |times| && forall i :: 0 <= i < |s| ==> !Up(s[i], times[i])
    ensures UpTotal(s, times) == 0
  {
    if s != [] {
      NoneUpTotal(s[..|s| - 1], times[..|s| - 1]);
    }
  }

  lemma ApplyKeepsSum(s: seq<State>, ev: Event)
    requires Fits(|s|, ev)
    ensures Wrr.Sum(Currents(Apply(s, ev))) == Wrr.Sum(Currents(s))
  {
    match ev
    case Pick(times) => PickKeepsSum(s, times);
    case Query(i, now) => assert Currents(Apply(s, ev)) == Currents(s);
    case CommFailed(i, now) => assert Currents(Apply(s, ev)) == Currents(s);
  }

  /** Over any run of picks, queries, failures, downs and recoveries, for any configured
      weights, the current weights keep their sum; started at zero, they sum to zero. */
  lemma {:induction false} RunKeepsSum(s: seq<State>, evs: seq<Event>, k: nat)
    requires k <= |evs| && AllFit(|s|, evs)
    ensures Wrr.Sum(Currents(After(s, evs, k))) == Wrr.Sum(Currents(s))
  {
    if k > 0 {
      RunKeepsSum(s, evs, k - 1);
      ApplyKeepsSum(After(s, evs, k - 1), evs[k - 1]);
    }
  }

  // ---------- bounds ----------

  /** The most a backend's effective weight can ever be. */
  function Cap(b: State): int {
    if b.weight > b.effective then b.weight else b.effective
  }

  function Caps(s: seq<State>): (r: seq<int>)
    ensures |r| == |s|
  {
    seq(|s|, i requires 0 <= i < |s| => Cap(s[i]))
  }

  ghost predicate Configured(s: seq<State>) {
    s != [] && forall i :: 0 <= i < |s| ==>
      s[i].weight >= 0 && s[i].effective >= 0 && s[i].failNum >= 0 && s[i].current == 0
  }

  /** Effective weights stay between zero and their caps, which only depend on the start. */
  ghost predicate WithinCaps(s0: seq<State>, s: seq<State>) {
    |s| == |s0| && forall i :: 0 <= i < |s| ==>
      && s[i].weight == s0[i].weight >= 0 && s[i].failNum == s0[i].failNum >= 0
      && 0 <= s[i].effective <= Cap(s0[i])
  }

  lemma LoweredRange(b: State)
    requires b.weight >= 0 && b.failNum >= 0 && b.effective >= 0
    ensures 0 <= Lowered(b).effective <= b.effective
  {
    if b.failNum > 0 {
      QuotientNonNegative(b.weight, b.failNum);
    }
  }

  lemma QuotientNonNegative(a: nat, b: nat)
    requires b > 0
    ensures a / b >= 0
  {
  }

  lemma ApplyWithinCaps(s0: seq<State>, s: seq<State>, ev: Event)
    requires WithinCaps(s0, s) && Fits(|s|, ev)
    ensures WithinCaps(s0, Apply(s, ev))
  {
    match ev
    case Pick(times) =>
      var scanned := Scan(s, times);
      assert WithinCaps(s0, scanned);
    case Query(i, now) =>
    case CommFailed(i, now) => LoweredRange(s[i]);
  }

  lemma {:induction false} RunWithinCaps(s: seq<State>, evs: seq<Event>, k: nat)
    requires Configured(s)
    requires k <= |evs| && AllFit(|s|, evs)
    ensures WithinCaps(s, After(s, evs, k))
  {
    if k > 0 {
      RunWithinCaps(s, evs, k - 1);
      ApplyWithinCaps(s, After(s, evs, k - 1), evs[k - 1]);
    }
  }

  ghost predicate AllUp(s: seq<State>, times: seq<int>) {
    |s| == |times| && forall i :: 0 <= i < |s| ==> Up(s[i], times[i])
  }

  /** No pick of the run finds a backend down. */
  ghost predicate NeverDown(s: seq<State>, evs: seq<Event>) {
    && AllFit(|s|, evs)
    && (forall k :: 0 <= k < |evs| && evs[k].Pick? ==> AllUp(After(s, evs, k), evs[k].times))
  }

  lemma {:induction false} AllUpTotal(s: seq<State>, times: seq<int>)
    requires AllUp(s, times)
    ensures UpTotal(s, times) == Wrr.Sum(Effectives(s))
  {
    if s != [] {
      var n := |s| - 1;
      assert AllUp(s[..n], times[..n]) by {
        assert forall i :: 0 <= i < n ==> Up(s[i], times[i]);
      }
      AllUpTotal(s[..n], times[..n]);
      assert Effectives(s)[..n] == Effectives(s[..n]);
    }
  }

  lemma {:induction false} SumMonotone(a: seq<int>, b: seq<int>)
    requires |a| == |b| && forall i :: 0 <= i < |a| ==> a[i] <= b[i]
    ensures Wrr.Sum(a) <= Wrr.Sum(b)
  {
    if a != [] {
      SumMonotone(a[..|a| - 1], b[..|b| - 1]);
    }
  }

  lemma GainWhenUp(s: seq<State>, times: seq<int>)
    requires AllUp(s, times)
    ensures Currents(Scan(s, times)) == Wrr.Plus(Currents(s), Effectives(s))
  {
    hide Up;
    forall i | 0 <= i < |s| ensures Advanced(s[i], times[i]).current == s[i].current + s[i].effective {
      assert Up(s[i], times[i]);
    }
  }

  lemma BestIsArgMax(s: seq<State>, times: seq<int>)
    requires s != [] && AllUp(s, times)
    ensures Best(s, times) == Wrr.ArgMax(Wrr.Plus(Currents(s), Effectives(s)))
  {
    hide Up, Advanced;
    var gained := Wrr.Plus(Currents(s), Effectives(s));
    GainWhenUp(s, times);
    BestIsFirstMax(s, times);
    assert forall i :: 0 <= i < |s| ==> Advanced(s[i], times[i]).current == Currents(Scan(s, times))[i];
    assert Up(s[0], times[0]);
    var b, a := Best(s, times), Wrr.ArgMax(gained);
    assert Up(s[a], times[a]) && gained[a] <= gained[b];
  }

  lemma AllUpLength(s: seq<State>, times: seq<int>)
    requires AllUp(s, times)
    ensures |s| == |times|
  {
  }

  /** When every backend is up, the scan is the vector step of SmoothWrr. */
  lemma PickIsStep(s: seq<State>, times: seq<int>)
    requires s != [] && AllUp(s, times)
    ensures Currents(PickWeighted(s, times)) == Wrr.Step(Currents(s), Effectives(s))
    ensures Best(s, times) == Wrr.ArgMax(Wrr.Plus(Currents(s), Effectives(s)))
  {
    hide Up, Advanced, Best, UpTotal, Wrr.Sum, Wrr.ArgMax, AllUp;
    assert |s| == |times| by { AllUpLength(s, times); }
    GainWhenUp(s, times);
    BestIsArgMax(s, times);
    AllUpTotal(s, times);
    var scanned, b := Scan(s, times), Best(s, times);
    assert Currents(PickWeighted(s, times)) ==
           Currents(scanned)[b := scanned[b].current - UpTotal(s, times)];
  }

  ghost predicate Bounded(s: seq<State>, total: int) {
    && Wrr.Sum(Currents(s)) == 0
    && forall i :: 0 <= i < |s| ==> s[i].current >= -total
  }

  /** One step of the vector keeps every element at or above minus a bound of the gain. */
  lemma StepBounded(cur: seq<int>, eff: seq<int>, total: int)
    requires |cur| == |eff| > 0 && Wrr.Sum(cur) == 0 && Wrr.Sum(eff) <= total
    requires forall i :: 0 <= i < |cur| ==> cur[i] >= -total && eff[i] >= 0
    ensures forall i :: 0 <= i < |cur| ==> Wrr.Step(cur, eff)[i] >= -total
  {
    var gained := Wrr.Plus(cur, eff);
    Wrr.SumAtLeast(eff, 0);
    Wrr.SumPlus(cur, eff);
    Wrr.SumAtMost(gained, gained[Wrr.ArgMax(gained)]);
    Wrr.SignOfProduct(|gained|, gained[Wrr.ArgMax(gained)]);
  }

  lemma PickBounded(s0: seq<State>, s: seq<State>, times: seq<int>, total: int)
    requires WithinCaps(s0, s) && s != [] && AllUp(s, times)
    requires total == Wrr.Sum(Caps(s0)) && Bounded(s, total)
    ensures Bounded(PickWeighted(s, times), total)
  {
    assert |s| == |times|;
    var cur, eff := Currents(s), Effectives(s);
    SumMonotone(eff, Caps(s0));
    PickKeepsSum(s, times);
    PickIsStep(s, times);
    hide PickWeighted, AllUp, Caps;
    assert forall i :: 0 <= i < |s| ==> cur[i] == s[i].current && eff[i] == s[i].effective;
    StepBounded(cur, eff, total);
    hide WithinCaps;
    var t := PickWeighted(s, times);
    forall i | 0 <= i < |t| ensures t[i].current >= -total {
      assert t[i].current == Currents(t)[i] == Wrr.Step(cur, eff)[i];
    }
  }

  lemma ApplyBounded(s0: seq<State>, s: seq<State>, ev: Event, total: int)
    requires WithinCaps(s0, s) && s != [] && Fits(|s|, ev) && (ev.Pick? ==> AllUp(s, ev.times))
    requires total == Wrr.Sum(Caps(s0)) && Bounded(s, total)
    ensures Bounded(Apply(s, ev), total)
  {
    ApplyKeepsSum(s, ev);
    if ev.Pick? {
      PickBounded(s0, s, ev.times, total);
    }
  }

  lemma {:induction false} RunBounded(s: seq<State>, evs: seq<Event>, k: nat)
    requires Configured(s) && NeverDown(s, evs) && k <= |evs|
    ensures Bounded(After(s, evs, k), Wrr.Sum(Caps(s)))
  {
    hide Bounded, Apply;
    if k == 0 {
      StartBounded(s);
    } else {
      RunBounded(s, evs, k - 1);
      RunWithinCaps(s, evs, k - 1);
      ApplyBounded(s, After(s, evs, k - 1), evs[k - 1], Wrr.Sum(Caps(s)));
    }
  }

  lemma StartBounded(s: seq<State>)
    requires Configured(s)
    ensures Bounded(s, Wrr.Sum(Caps(s)))
  {
    assert Currents(s) == Wrr.Zeros(|s|);
    Wrr.SumZeros(|s|);
    Wrr.SumAtLeast(Caps(s), 0);
  }

  lemma StateRange(s0: seq<State>, s: seq<State>, i: nat)
    requires WithinCaps(s0, s) && i < |s| && Bounded(s, Wrr.Sum(Caps(s0)))
    ensures var total := Wrr.Sum(Caps(s0));
      && -total <= s[i].current <= (|s| - 1) * total
      && (|s| * total < TWO_31 ==> -TWO_31 <= s[i].current + s[i].effective < TWO_31)
  {
    var total := Wrr.Sum(Caps(s0));
    assert s[i].current <= -(-total * (|s| - 1)) by { Wrr.ElementAtMost(Currents(s), -total, i); }
    assert s[i].effective <= total by { Wrr.ElementAtMost(Caps(s0), 0, i); }
    assert -(-total * (|s| - 1)) == (|s| - 1) * total;
    TotalBelowProduct(|s|, total);
  }

  /** While none is down, every current weight stays in `[-W, (n-1) W]`, with `W` the
      configured total; so nothing the scan computes leaves int32 once `n W` fits in it. */
  lemma CurrentRange(s: seq<State>, evs: seq<Event>, k: nat, i: nat)
    requires Configured(s) && NeverDown(s, evs) && k <= |evs| && i < |s|
    ensures var total, t := Wrr.Sum(Caps(s)), After(s, evs, k)[i];
      && -total <= t.current <= (|s| - 1) * total
      && (|s| * total < TWO_31 ==> -TWO_31 <= t.current + t.effective < TWO_31)
  {
    RunBounded(s, evs, k);
    RunWithinCaps(s, evs, k);
    StateRange(s, After(s, evs, k), i);
  }

  lemma TotalBelowProduct(n: nat, total: int)
    requires n > 0 && total >= 0
    ensures total <= n * total == (n - 1) * total + total
  {
  }

  // ---------- exact fairness of runs as coded ----------

  /** The backends chosen by the picks of a run, in order. */
  function Choices(s: seq<State>, evs: seq<Event>, k: nat): (r: seq<int>)
    requires k <= |evs| && AllFit(|s|, evs)
  {
    if k == 0 then [] else
    Choices(s, evs, k - 1) +
      if evs[k - 1].Pick? then [Best(After(s, evs, k - 1), evs[k - 1].times)] else []
  }

  /** Backends as `add_backend` leaves them: `weight` is 0 and `effective` is configured. */
  ghost predicate AsAdded(s: seq<State>) {
    s != [] && forall i :: 0 <= i < |s| ==>
      s[i].weight == 0 && s[i].current == 0 && s[i].effective > 0 && s[i].failNum >= 0
  }

  lemma ApplyFollows(s0: seq<State>, s: seq<State>, ev: Event)
    requires AsAdded(s0) && WithinCaps(s0, s) && Effectives(s) == Effectives(s0)
    requires Fits(|s|, ev) && (ev.Pick? ==> AllUp(s, ev.times))
    ensures Effectives(Apply(s, ev)) == Effectives(s0)
    ensures Currents(Apply(s, ev)) ==
              if ev.Pick? then Wrr.Step(Currents(s), Effectives(s)) else Currents(s)
  {
    assert forall i :: 0 <= i < |s| ==> s[i].effective == Effectives(s)[i] == Effectives(s0)[i];
    match ev
    case Pick(times) => PickIsStep(s, times);
    case Query(i, now) =>
    case CommFailed(i, now) => ZeroOverAnything(s[i].failNum);
  }

  lemma StartFollows(s: seq<State>, evs: seq<Event>)
    requires AsAdded(s) && AllFit(|s|, evs)
    ensures WithinCaps(s, After(s, evs, 0)) && After(s, evs, 0) == s && Choices(s, evs, 0) == []
    ensures Currents(s) == Wrr.Current(Effectives(s), 0)
  {
    assert Currents(s) == Wrr.Zeros(|s|);
  }

  /** Failures never move the effective weights, and the current weights are a function of
      the number of picks alone. */
  lemma {:induction false} RunFollowsCurrent(s: seq<State>, evs: seq<Event>, k: nat)
    requires AsAdded(s) && NeverDown(s, evs) && k <= |evs|
    ensures WithinCaps(s, After(s, evs, k))
    ensures Effectives(After(s, evs, k)) == Effectives(s)
    ensures Currents(After(s, evs, k)) == Wrr.Current(Effectives(s), |Choices(s, evs, k)|)
  {
    hide Apply, AllUp, Wrr.Step, Cap;
    if k == 0 {
      StartFollows(s, evs);
    } else {
      RunFollowsCurrent(s, evs, k - 1);
      ApplyWithinCaps(s, After(s, evs, k - 1), evs[k - 1]);
      ApplyFollows(s, After(s, evs, k - 1), evs[k - 1]);
    }
  }

  lemma ZeroOverAnything(b: int)
    ensures b != 0 ==> TruncDiv(0, b) == 0
  {
  }

  /** Pick number `j` of any run, whatever else happens between picks, is `Chosen(w, j)`. */
  lemma {:induction false} ChoicesAreChosen(s: seq<State>, evs: seq<Event>, k: nat, j: nat)
    requires AsAdded(s) && NeverDown(s, evs) && k <= |evs| && j < |Choices(s, evs, k)|
    ensures Choices(s, evs, k)[j] == Wrr.Chosen(Effectives(s), j)
  {
    hide Wrr.Chosen, Apply, Best, After, AllUp, Wrr.Current;
    if j < |Choices(s, evs, k - 1)| {
      ChoicesAreChosen(s, evs, k - 1, j);
    } else {
      RunFollowsCurrent(s, evs, k - 1);
      BestIsChosen(After(s, evs, k - 1), evs[k - 1].times, Effectives(s), j);
    }
  }

  lemma BestIsChosen(s: seq<State>, times: seq<int>, w: seq<int>, j: nat)
    requires s != [] && AllUp(s, times)
    requires w == Effectives(s) && Currents(s) == Wrr.Current(w, j)
    ensures Best(s, times) == Wrr.Chosen(w, j)
  {
    BestIsArgMax(s, times);
  }

  lemma {:induction false} CountChosen(w: seq<int>, log: seq<int>, i: nat, lo: nat, hi: nat)
    requires i < |w| && lo <= hi <= |log|
    requires forall j :: 0 <= j < |log| ==> log[j] == Wrr.Chosen(w, j)
    ensures multiset(log[lo..hi])[i] == Wrr.Picks(w, i, lo, hi)
    decreases hi - lo
  {
    hide Wrr.Chosen;
    if lo < hi {
      CountChosen(w, log, i, lo, hi - 1);
      assert log[lo..hi] == log[lo..hi - 1] + [log[hi - 1]];
    }
  }

  /** Exact fairness as coded: in any run in which no pick finds a backend down, every
      window of `W` consecutive picks, wherever it starts, chooses backend `i` exactly as
      often as its configured weight says. */
  lemma RunFairness(s: seq<State>, evs: seq<Event>, lo: nat, i: nat)
    requires AsAdded(s) && NeverDown(s, evs) && i < |s|
    requires Wrr.Sum(Effectives(s)) > 0
    requires lo + Wrr.Sum(Effectives(s)) <= |Choices(s, evs, |evs|)|
    ensures multiset(Choices(s, evs, |evs|)[lo..lo + Wrr.Sum(Effectives(s))])[i] == s[i].effective
  {
    hide Wrr.Chosen, Wrr.Picks, Wrr.Sum, Choices, AllUp;
    var w, log := Effectives(s), Choices(s, evs, |evs|);
    forall j | 0 <= j < |log| ensures log[j] == Wrr.Chosen(w, j) {
      ChoicesAreChosen(s, evs, |evs|, j);
    }
    CountChosen(w, log, i, lo, lo + Wrr.Sum(w));
    Wrr.Fairness(w, lo, i);
  }

  // ---------- how weights drain and recover ----------

  function FailedAt(b: State, times: seq<int>): State {
    if times == [] then b else Failed(FailedAt(b, times[..|times| - 1]), times[|times| - 1])
  }

  /** Failures one after the other take their share of the weight each, until nothing is left. */
  lemma {:induction false} FailuresDrain(b: State, times: seq<int>)
    requires b.failCheck && b.failNum > 0 && b.weight >= 0 && b.effective >= 0
    ensures var c, left := FailedAt(b, times), b.effective - |times| * (b.weight / b.failNum);
      && c.effective == (if left < 0 then 0 else left)
      && c.failCheck && c.failNum == b.failNum && c.weight == b.weight && c.current == b.current
  {
    if times != [] {
      var n, share := |times| - 1, b.weight / b.failNum;
      FailuresDrain(b, times[..n]);
      assert (n + 1) * share == n * share + share;
    }
  }

  function ScannedAt(b: State, times: seq<int>): State {
    if times == [] then b else Advanced(ScannedAt(b, times[..|times| - 1]), times[|times| - 1])
  }

  /** Every scan that finds a back end available gives it back one, until it has its weight. */
  lemma {:induction false} ScansRecover(b: State, times: seq<int>)
    requires !b.fail && b.effective <= b.weight
    ensures var c := ScannedAt(b, times);
      && c.effective == (if b.effective + |times| < b.weight then b.effective + |times| else b.weight)
      && !c.fail && c.weight == b.weight
  {
    if times != [] {
      ScansRecover(b, times[..|times| - 1]);
    }
  }
}
